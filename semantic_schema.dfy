// The semantic view of the schema (semantic_schema.py): text normalisation
// and the column and table corpora handed to the embedder, built once and
// then served from the object's memo fields.

module SemanticCorpus {
  import opened Wrappers
  import opened Strings
  import opened Sequences
  import opened Dicts
  import opened SchemaLoading

  // ---------------------------------------------------------------------
  // normalize: re.sub(r"\s+", " ", text.strip().lower())
  // ---------------------------------------------------------------------

  /** Its only whitespace characters are plain spaces. */
  predicate PlainSpaces(s: string) {
    forall i :: 0 <= i < |s| && IsSpace(s[i]) ==> s[i] == ' '
  }

  /** No two whitespace characters are adjacent. */
  predicate SingleSpaced(s: string) {
    forall i :: 0 <= i < |s| - 1 ==> !(IsSpace(s[i]) && IsSpace(s[i + 1]))
  }

  /** No whitespace at either end. */
  predicate Trimmed(s: string) {
    s == [] || (!IsSpace(s[0]) && !IsSpace(s[|s| - 1]))
  }

  /** Every run of whitespace becomes one space. */
  function CollapseSpaces(s: string): (r: string)
    ensures |r| <= |s|
    ensures r == [] <==> s == []
    ensures r != [] ==> (IsSpace(r[0]) <==> IsSpace(s[0]))
    decreases |s|
  {
    if s == [] then []
    else if IsSpace(s[0]) then " " + CollapseSpaces(TrimLeft(s[1..]))
    else [s[0]] + CollapseSpaces(s[1..])
  }

  /** A suffix of lower-case text is lower-case. */
  lemma NoUpperSuffix(s: string, n: nat)
    requires NoUpper(s) && n <= |s|
    ensures NoUpper(s[n..])
  {
    forall i | 0 <= i < |s| - n
      ensures !IsUpper(s[n..][i])
    {
      assert s[n..][i] == s[n + i];
    }
  }

  /** The collapsed text has only plain spaces. */
  lemma {:induction false} CollapsePlain(s: string)
    ensures PlainSpaces(CollapseSpaces(s))
    decreases |s|
  {
    if s != [] {
      var rest := if IsSpace(s[0]) then TrimLeft(s[1..]) else s[1..];
      var c := CollapseSpaces(rest);
      CollapsePlain(rest);
      var r := CollapseSpaces(s);
      forall i | 0 <= i < |r| && IsSpace(r[i])
        ensures r[i] == ' '
      {
        if i > 0 {
          assert r[i] == c[i - 1];
        }
      }
    }
  }

  /** The collapsed text never has two whitespace characters in a row. */
  lemma {:induction false} CollapseSingle(s: string)
    ensures SingleSpaced(CollapseSpaces(s))
    decreases |s|
  {
    if s != [] {
      var rest := if IsSpace(s[0]) then TrimLeft(s[1..]) else s[1..];
      var c := CollapseSpaces(rest);
      CollapseSingle(rest);
      var r := CollapseSpaces(s);
      assert r[1..] == c;
      forall i | 0 <= i < |r| - 1
        ensures !(IsSpace(r[i]) && IsSpace(r[i + 1]))
      {
        if i > 0 {
          assert r[i] == c[i - 1] && r[i + 1] == c[i];
        } else {
          assert r[1] == c[0];
        }
      }
    }
  }

  /** Collapsing lower-case text gives lower-case text. */
  lemma {:induction false} CollapseLower(s: string)
    requires NoUpper(s)
    ensures NoUpper(CollapseSpaces(s))
    decreases |s|
  {
    if s != [] {
      var rest := if IsSpace(s[0]) then TrimLeft(s[1..]) else s[1..];
      NoUpperSuffix(s, 1);
      if IsSpace(s[0]) {
        NoUpperSuffix(s[1..], |s| - 1 - |rest|);
      }
      CollapseLower(rest);
      var c := CollapseSpaces(rest);
      var r := CollapseSpaces(s);
      forall i | 0 <= i < |r|
        ensures !IsUpper(r[i])
      {
        if i > 0 {
          assert r[i] == c[i - 1];
        }
      }
    }
  }

  /** Leading whitespace followed by nothing else collapses to one space. */
  lemma CollapseBlank(s: string)
    requires s != [] && IsSpace(s[0]) && TrimLeft(s[1..]) == []
    ensures CollapseSpaces(s) == " " && IsSpace(s[|s| - 1])
  {
    var tail := s[1..];
    if |s| > 1 {
      assert IsSpace(tail[|tail| - 1]);
    }
  }

  /** Skipping a leading run keeps the last character of the collapse. */
  lemma CollapseSkipLast(s: string)
    requires s != [] && IsSpace(s[0]) && TrimLeft(s[1..]) != []
    ensures var r := CollapseSpaces(s); var c := CollapseSpaces(TrimLeft(s[1..]));
      c != [] && r[|r| - 1] == c[|c| - 1]
  {
    assert CollapseSpaces(s) == " " + CollapseSpaces(TrimLeft(s[1..]));
  }

  /** Copying a leading character keeps the last character of the collapse. */
  lemma CollapseKeepLast(s: string)
    requires |s| > 1 && !IsSpace(s[0])
    ensures var r := CollapseSpaces(s); var c := CollapseSpaces(s[1..]);
      c != [] && r[|r| - 1] == c[|c| - 1] && s[1..][|s| - 2] == s[|s| - 1]
  {
    var c := CollapseSpaces(s[1..]);
    assert CollapseSpaces(s) == [s[0]] + c;
  }

  /** The collapse ends in the text's last character, or in a space when that one is whitespace. */
  lemma {:induction false} CollapseLastChar(s: string)
    requires s != []
    ensures var r := CollapseSpaces(s);
      r[|r| - 1] == if IsSpace(s[|s| - 1]) then ' ' else s[|s| - 1]
    decreases |s|, 1
  {
    if IsSpace(s[0]) {
      if TrimLeft(s[1..]) == [] {
        CollapseBlank(s);
      } else {
        SkipLastChar(s);
      }
    } else if |s| > 1 {
      KeepLastChar(s);
    }
  }

  lemma {:induction false} SkipLastChar(s: string)
    requires s != [] && IsSpace(s[0]) && TrimLeft(s[1..]) != []
    ensures var r := CollapseSpaces(s);
      r[|r| - 1] == if IsSpace(s[|s| - 1]) then ' ' else s[|s| - 1]
    decreases |s|, 0
  {
    var tail := s[1..];
    assert tail[|tail| - 1] == s[|s| - 1];
    var t := TrimLeft(tail);
    CollapseSkipLast(s);
    TrimLeftLast(tail);
    CollapseLastChar(t);
  }

  lemma {:induction false} KeepLastChar(s: string)
    requires |s| > 1 && !IsSpace(s[0])
    ensures var r := CollapseSpaces(s);
      r[|r| - 1] == if IsSpace(s[|s| - 1]) then ' ' else s[|s| - 1]
    decreases |s|, 0
  {
    CollapseKeepLast(s);
    CollapseLastChar(s[1..]);
  }

  /** A run of whitespace at the end of the text leaves a space at the end, and only then. */
  lemma CollapseLast(s: string)
    requires s != []
    ensures IsSpace(CollapseSpaces(s)[|CollapseSpaces(s)| - 1]) <==> IsSpace(s[|s| - 1])
  {
    CollapseLastChar(s);
  }

  /** Text whose whitespace is single spaces already is left as it is. */
  lemma {:induction false} CollapseNoop(s: string)
    requires PlainSpaces(s) && SingleSpaced(s)
    ensures CollapseSpaces(s) == s
    decreases |s|
  {
    if s != [] {
      CollapseNoop(s[1..]);
      if IsSpace(s[0]) {
        TrimLeftNoop(s[1..]);
      }
    }
  }

  /** normalize */
  function Normalize(text: string): string {
    CollapseSpaces(ToLower(Strip(text)))
  }

  /** No whitespace at either end of the result. */
  lemma NormalizeTrimmed(text: string)
    ensures Trimmed(Normalize(text))
  {
    var stripped := Strip(text);
    var lowered := ToLower(stripped);
    var r := CollapseSpaces(lowered);
    if lowered != [] {
      assert lowered[0] == LowerChar(stripped[0]);
      assert lowered[|lowered| - 1] == LowerChar(stripped[|stripped| - 1]);
      CollapseLast(lowered);
    }
  }

  /**
   * The result is lower-case, has no whitespace at either end, and its only
   * whitespace is single spaces between other characters.
   */
  lemma NormalizeShape(text: string)
    ensures NoUpper(Normalize(text)) && Trimmed(Normalize(text))
    ensures PlainSpaces(Normalize(text)) && SingleSpaced(Normalize(text))
  {
    var lowered := ToLower(Strip(text));
    CollapsePlain(lowered);
    CollapseSingle(lowered);
    CollapseLower(lowered);
    NormalizeTrimmed(text);
  }

  /** Normalising twice is normalising once. */
  lemma NormalizeIdempotent(text: string)
    ensures Normalize(Normalize(text)) == Normalize(text)
  {
    NormalizeShape(text);
    var r := Normalize(text);
    StripNoop(r);
    ToLowerOfLower(r);
    CollapseNoop(r);
  }

  // ---------------------------------------------------------------------
  // build_column_corpus
  // ---------------------------------------------------------------------

  /** {"table": ..., "column": ..., "text": ..., "meta": ...} */
  datatype ColumnDoc = ColumnDoc(table: string, column: string, text: string, meta: Column)

  /** name, description, key, table name, display name, then the column's aliases. */
  function ColumnPhrases(t: Table, key: string, col: Column): seq<string> {
    [col.name, col.description, key, t.tableName, t.displayName] + col.aliases
  }

  /**
   * The document for one column. The layout functions take the text
   * normaliser as a parameter; the corpus the object builds uses Normalize.
   */
  function ColumnDocOf(t: Table, key: string, norm: string -> string): ColumnDoc
    requires key in t.columns.entries
  {
    var col := t.columns.entries[key];
    ColumnDoc(t.tableName, key, norm(Join(ColumnPhrases(t, key, col), ' ')), col)
  }

  /** The documents for the given column keys of one table. */
  function TableColumnDocs(t: Table, keys: seq<string>, norm: string -> string): (r: seq<ColumnDoc>)
    requires forall k :: k in keys ==> k in t.columns.entries
    ensures |r| == |keys|
  {
    if keys == [] then []
    else TableColumnDocs(t, keys[..|keys| - 1], norm) + [ColumnDocOf(t, keys[|keys| - 1], norm)]
  }

  /** The j-th document is the j-th key's. */
  lemma {:induction false} TableColumnDocsAt(t: Table, keys: seq<string>, j: nat, norm: string -> string)
    requires forall k :: k in keys ==> k in t.columns.entries
    requires j < |keys|
    ensures TableColumnDocs(t, keys, norm)[j] == ColumnDocOf(t, keys[j], norm)
    decreases |keys|
  {
    if j < |keys| - 1 {
      var init := keys[..|keys| - 1];
      assert init[j] == keys[j];
      TableColumnDocsAt(t, init, j, norm);
    }
  }

  /** Each table's column documents, in table order. */
  function DocLists(tables: seq<Table>, norm: string -> string): (r: seq<seq<ColumnDoc>>)
    requires WellFormed(tables)
    ensures |r| == |tables|
    ensures forall k :: 0 <= k < |tables| ==> r[k] == TableColumnDocs(tables[k], tables[k].columns.order, norm)
  {
    seq(|tables|, k requires 0 <= k < |tables| => TableColumnDocs(tables[k], tables[k].columns.order, norm))
  }

  /** build_column_corpus: the column documents of all the tables, table by table. */
  function ColumnCorpus(tables: seq<Table>, norm: string -> string): seq<ColumnDoc>
    requires WellFormed(tables)
  {
    Flatten(DocLists(tables, norm), |tables|)
  }

  /** The number of columns of the first n tables. */
  function ColumnCount(tables: seq<Table>, n: nat): nat
    requires n <= |tables|
  {
    if n == 0 then 0
    else ColumnCount(tables, n - 1) + |tables[n - 1].columns.order|
  }

  /** The first n document lists hold one document per column of the first n tables. */
  lemma {:induction false} DocListsLength(tables: seq<Table>, n: nat, norm: string -> string)
    requires WellFormed(tables) && n <= |tables|
    ensures TotalLength(DocLists(tables, norm), n) == ColumnCount(tables, n)
  {
    if n > 0 {
      DocListsLength(tables, n - 1, norm);
      var pieces := DocLists(tables, norm);
      assert |pieces[n - 1]| == |tables[n - 1].columns.order|;
    }
  }

  lemma ColumnCorpusLength(tables: seq<Table>, norm: string -> string)
    requires WellFormed(tables)
    ensures |ColumnCorpus(tables, norm)| == ColumnCount(tables, |tables|)
  {
    FlattenLength(DocLists(tables, norm), |tables|);
    DocListsLength(tables, |tables|, norm);
  }

  /**
   * The corpus holds exactly one document per (table, column key), in
   * schema order: the j-th column of table i sits after the columns of the
   * tables before it and carries that table's name and that key.
   */
  lemma ColumnCorpusAt(tables: seq<Table>, i: nat, j: nat, norm: string -> string)
    requires WellFormed(tables)
    requires i < |tables| && j < |tables[i].columns.order|
    ensures ColumnCount(tables, i) + j < |ColumnCorpus(tables, norm)|
    ensures ColumnCorpus(tables, norm)[ColumnCount(tables, i) + j] == ColumnDocOf(tables[i], tables[i].columns.order[j], norm)
  {
    var pieces := DocLists(tables, norm);
    FlattenAt(pieces, |tables|, i, j);
    DocListsLength(tables, i, norm);
    TableColumnDocsAt(tables[i], tables[i].columns.order, j, norm);
  }

  /** The columns before table i, plus table i's, fit within the whole count. */
  lemma {:induction false} ColumnCountPrefix(tables: seq<Table>, i: nat, n: nat)
    requires i < n <= |tables|
    ensures ColumnCount(tables, i) + |tables[i].columns.order| <= ColumnCount(tables, n)
  {
    if i < n - 1 {
      ColumnCountPrefix(tables, i, n - 1);
    }
  }

  // ---------------------------------------------------------------------
  // build_table_corpus
  // ---------------------------------------------------------------------

  /** {"table": ..., "meta": ..., "text": ..., "aliases": ...} */
  datatype TableDoc = TableDoc(table: string, meta: Table, text: string, aliases: seq<string>)

  /** table.columns.values() */
  function ColumnValues(t: Table): (r: seq<Column>)
    requires Dicts.Valid(t.columns)
    ensures |r| == |t.columns.order|
    ensures forall i :: 0 <= i < |r| ==> r[i] == t.columns.entries[t.columns.order[i]]
  {
    seq(|t.columns.order|, i requires 0 <= i < |t.columns.order| => t.columns.entries[t.columns.order[i]])
  }

  function ColumnName(c: Column): string { c.name }

  function ColumnDescription(c: Column): string { c.description }

  predicate NonEmpty(p: string) { p != [] }

  /**
   * display name, description, table name, the column names, the non-empty
   * column descriptions, and when there are aliases each alias and then all
   * of them together.
   */
  function TablePhrases(t: Table): seq<string>
    requires Dicts.Valid(t.columns)
  {
    var values := ColumnValues(t);
    [t.displayName, t.description, t.tableName,
     Join(Map(values, ColumnName), ' '),
     Join(Filter(Map(values, ColumnDescription), NonEmpty), ' ')]
    + (if t.aliases != [] then t.aliases + [Join(t.aliases, ' ')] else [])
  }

  function TableDocOf(t: Table, norm: string -> string): TableDoc
    requires Dicts.Valid(t.columns)
  {
    TableDoc(t.tableName, t, norm(Join(Filter(TablePhrases(t), NonEmpty), ' ')), t.aliases)
  }

  /** One document per table, in schema order. */
  function TableCorpus(tables: seq<Table>, norm: string -> string): (r: seq<TableDoc>)
    requires WellFormed(tables)
    ensures |r| == |tables|
  {
    if tables == [] then []
    else
      var init := tables[..|tables| - 1];
      assert WellFormed(init) by {
        forall i | 0 <= i < |init| ensures Dicts.Valid(init[i].columns) { assert init[i] == tables[i]; }
      }
      TableCorpus(init, norm) + [TableDocOf(tables[|tables| - 1], norm)]
  }

  /** The document at position i is table i's. */
  lemma {:induction false} TableCorpusAt(tables: seq<Table>, i: nat, norm: string -> string)
    requires WellFormed(tables) && i < |tables|
    ensures TableCorpus(tables, norm)[i] == TableDocOf(tables[i], norm)
    decreases |tables|
  {
    var init := tables[..|tables| - 1];
    if i < |tables| - 1 {
      assert init[i] == tables[i];
      TableCorpusAt(init, i, norm);
    }
  }

  /**
   * The text of a table document joins only non-empty phrases, and those
   * include the table's name, display name, description and every alias
   * (whichever are non-empty); the document's alias list is [] when the
   * table has none.
   */
  lemma TableDocSources(t: Table)
    requires Dicts.Valid(t.columns)
    ensures forall p :: p in Filter(TablePhrases(t), NonEmpty) ==> p != []
    ensures forall p :: p in [t.displayName, t.description, t.tableName] + t.aliases && p != [] ==>
      p in Filter(TablePhrases(t), NonEmpty)
    ensures t.aliases == [] ==> TableDocOf(t, Normalize).aliases == []
    ensures TableDocOf(t, Normalize).table == t.tableName
  {
    FilterMembers(TablePhrases(t), NonEmpty);
  }

  /** The inner loop of build_column_corpus: one document per column of a table, in column order. */
  method TableColumnDocuments(t: Table, norm: string -> string) returns (docs: seq<ColumnDoc>)
    requires Dicts.Valid(t.columns)
    ensures docs == TableColumnDocs(t, t.columns.order, norm)
  {
    var items := Items(t.columns);
    docs := [];
    var j := 0;
    while j < |items|
      invariant 0 <= j <= |items|
      invariant docs == TableColumnDocs(t, t.columns.order[..j], norm)
    {
      var (key, col) := items[j];
      assert t.columns.order[..j + 1][..j] == t.columns.order[..j];
      var phrases := [col.name, col.description, key, t.tableName, t.displayName];
      if col.aliases != [] {
        phrases := phrases + col.aliases;
      }
      assert key == t.columns.order[j] && col == t.columns.entries[key];
      assert phrases == ColumnPhrases(t, key, col);
      var text := norm(Join(phrases, ' '));
      assert ColumnDoc(t.tableName, key, text, col) == ColumnDocOf(t, key, norm);
      docs := docs + [ColumnDoc(t.tableName, key, text, col)];
      j := j + 1;
    }
    assert t.columns.order[..j] == t.columns.order;
  }

  /** The outer loop of build_column_corpus: the tables' column documents, table by table. */
  method ColumnDocuments(tables: seq<Table>, norm: string -> string) returns (corpus: seq<ColumnDoc>)
    requires WellFormed(tables)
    ensures corpus == ColumnCorpus(tables, norm)
  {
    ghost var pieces := DocLists(tables, norm);
    corpus := [];
    var i := 0;
    while i < |tables|
      invariant 0 <= i <= |tables|
      invariant corpus == Flatten(pieces, i)
    {
      var t := tables[i];
      assert Dicts.Valid(t.columns);
      var docs := TableColumnDocuments(t, norm);
      assert docs == pieces[i];
      corpus := corpus + docs;
      i := i + 1;
    }
  }

  /** The body of build_table_corpus's loop: the document of one table. */
  method TableDocument(t: Table, norm: string -> string) returns (doc: TableDoc)
    requires Dicts.Valid(t.columns)
    ensures doc == TableDocOf(t, norm)
  {
    var values := ColumnValues(t);
    var names := Join(Map(values, ColumnName), ' ');
    var descriptions := Join(Filter(Map(values, ColumnDescription), NonEmpty), ' ');
    ghost var head := [t.displayName, t.description, t.tableName, names, descriptions];
    var phrases := [t.displayName, t.description, t.tableName, names, descriptions];
    if t.aliases != [] {
      phrases := phrases + t.aliases;
      phrases := phrases + [Join(t.aliases, ' ')];
      assert phrases == head + (t.aliases + [Join(t.aliases, ' ')]);
    }
    assert phrases == TablePhrases(t);
    var text := norm(Join(Filter(phrases, NonEmpty), ' '));
    doc := TableDoc(t.tableName, t, text, t.aliases);
  }

  /** The loop of build_table_corpus: one document per table. */
  method TableDocuments(tables: seq<Table>, norm: string -> string) returns (corpus: seq<TableDoc>)
    requires WellFormed(tables)
    ensures corpus == TableCorpus(tables, norm)
  {
    corpus := [];
    var i := 0;
    while i < |tables|
      invariant 0 <= i <= |tables|
      invariant corpus == TableCorpus(tables[..i], norm)
    {
      var t := tables[i];
      assert tables[..i + 1][..i] == tables[..i];
      assert Dicts.Valid(t.columns);
      var doc := TableDocument(t, norm);
      corpus := corpus + [doc];
      i := i + 1;
    }
    assert tables[..i] == tables;
  }

  // ---------------------------------------------------------------------
  // The memoising object
  // ---------------------------------------------------------------------

  /** prepare_semantic_data: {"columns": ..., "tables": ...} */
  datatype SemanticData = SemanticData(columns: seq<ColumnDoc>, tables: seq<TableDoc>)

  class SemanticSchema {
    const loader: SchemaLoader
    /** self._normalize; the constructor fixes it to Normalize. */
    const norm: string -> string
    var columnCorpus: Option<seq<ColumnDoc>>
    var tableCorpus: Option<seq<TableDoc>>

    /** A memoised corpus is always the one the schema determines. */
    ghost predicate Valid()
      reads this
    {
      && loader.Valid()
      && (columnCorpus.Some? ==> columnCorpus.value == ColumnCorpus(loader.tables, norm))
      && (tableCorpus.Some? ==> tableCorpus.value == TableCorpus(loader.tables, norm))
    }

    constructor (schemaLoader: SchemaLoader)
      requires schemaLoader.Valid()
      ensures Valid()
      ensures loader == schemaLoader && norm == Normalize && columnCorpus == None && tableCorpus == None
    {
      loader := schemaLoader;
      norm := Normalize;
      columnCorpus := None;
      tableCorpus := None;
    }

    /** build_column_corpus: the memo when present, else the documents built afresh, memoised. */
    method BuildColumnCorpus() returns (r: seq<ColumnDoc>)
      requires Valid()
      modifies this
      ensures Valid()
      ensures r == ColumnCorpus(loader.tables, norm)
      ensures columnCorpus == Some(r) && tableCorpus == old(tableCorpus)
      ensures old(columnCorpus).Some? ==> r == old(columnCorpus).value
    {
      if columnCorpus.Some? {
        return columnCorpus.value;
      }
      r := ColumnDocuments(loader.tables, norm);
      columnCorpus := Some(r);
    }

    /** build_table_corpus: the memo when present, else the documents built afresh, memoised. */
    method BuildTableCorpus() returns (r: seq<TableDoc>)
      requires Valid()
      modifies this
      ensures Valid()
      ensures r == TableCorpus(loader.tables, norm)
      ensures tableCorpus == Some(r) && columnCorpus == old(columnCorpus)
      ensures old(tableCorpus).Some? ==> r == old(tableCorpus).value
    {
      if tableCorpus.Some? {
        return tableCorpus.value;
      }
      r := TableDocuments(loader.tables, norm);
      tableCorpus := Some(r);
    }

    /** prepare_semantic_data: the column corpus under columns, the table corpus under tables. */
    method PrepareSemanticData() returns (data: SemanticData)
      requires Valid()
      modifies this
      ensures Valid()
      ensures data.columns == ColumnCorpus(loader.tables, norm) && data.tables == TableCorpus(loader.tables, norm)
      ensures columnCorpus == Some(data.columns) && tableCorpus == Some(data.tables)
    {
      var columns := BuildColumnCorpus();
      var tables := BuildTableCorpus();
      data := SemanticData(columns, tables);
    }
  }

  /** After a first build, a second call returns the same corpus. */
  method BuildTwice(schemaLoader: SchemaLoader) returns (first: seq<ColumnDoc>, second: seq<ColumnDoc>)
    requires schemaLoader.Valid()
    ensures first == second == ColumnCorpus(schemaLoader.tables, Normalize)
  {
    var s := new SemanticSchema(schemaLoader);
    first := s.BuildColumnCorpus();
    second := s.BuildColumnCorpus();
  }
}
