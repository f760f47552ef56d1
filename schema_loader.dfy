// The schema catalogue (schema_loader.py): tables with aliases and
// columns, the name and alias maps built once by the constructor, and the
// lookups over them.

module SchemaLoading {
  import opened Wrappers
  import opened Sequences
  import opened Dicts

  /** A column entry; a missing alias list is the empty list. */
  datatype Column = Column(name: string, description: string, colType: string, aliases: seq<string>)

  /** A table entry; a missing alias list is the empty list. */
  datatype Table = Table(
    tableName: string,
    aliases: seq<string>,
    displayName: string,
    description: string,
    columns: Dict<string, Column>)

  /** Every table's columns form a well-formed dict. */
  ghost predicate WellFormed(tables: seq<Table>) {
    forall i :: 0 <= i < |tables| ==> Valid(tables[i].columns)
  }

  function TableName(t: Table): string { t.tableName }

  /** x is the table's name or one of its aliases. */
  predicate Names(t: Table, x: string) {
    x == t.tableName || x in t.aliases
  }

  /** tables[i] is the last table that x names. */
  ghost predicate LastNamer(tables: seq<Table>, x: string, i: int) {
    0 <= i < |tables| && Names(tables[i], x) && forall j :: i < j < |tables| ==> !Names(tables[j], x)
  }

  /** tables[i] is the last table called n. */
  ghost predicate LastNamed(tables: seq<Table>, n: string, i: int) {
    0 <= i < |tables| && tables[i].tableName == n && forall j :: i < j < |tables| ==> tables[j].tableName != n
  }

  // ---------------------------------------------------------------------
  // table_map: {t.table_name: t for t in tables}
  // ---------------------------------------------------------------------

  function TableMap(tables: seq<Table>): (m: Dict<string, Table>)
    ensures Valid(m)
  {
    if tables == [] then Empty()
    else
      var t := tables[|tables| - 1];
      Put(TableMap(tables[..|tables| - 1]), t.tableName, t)
  }

  /** The keys are the table names. */
  lemma TableMapKeys(tables: seq<Table>)
    ensures SetOf(TableMap(tables).order) == SetOf(Map(tables, TableName))
  {
    forall n ensures n in SetOf(TableMap(tables).order) <==> n in SetOf(Map(tables, TableName)) {
      TableMapNamed(tables, n);
      if n in Map(tables, TableName) {
        var i :| 0 <= i < |tables| && Map(tables, TableName)[i] == n;
        assert tables[i].tableName == n;
      }
    }
  }

  lemma {:induction false} TableMapNamed(tables: seq<Table>, n: string)
    ensures n in TableMap(tables).entries <==> exists i :: 0 <= i < |tables| && tables[i].tableName == n
    ensures n in TableMap(tables).entries ==> n in Map(tables, TableName)
  {
    if tables != [] {
      var k := |tables| - 1;
      var init := tables[..k];
      TableMapNamed(init, n);
      if tables[k].tableName == n {
        assert Map(tables, TableName)[k] == n;
      } else {
        if n in TableMap(init).entries {
          var i :| 0 <= i < k && init[i].tableName == n;
          assert tables[i] == init[i];
          assert Map(tables, TableName)[i] == n;
        }
        forall i | 0 <= i < k && tables[i].tableName == n
          ensures n in TableMap(init).entries
        {
          assert init[i] == tables[i];
        }
      }
    }
  }

  /** Each name maps to the last table of that name. */
  lemma TableMapValues(tables: seq<Table>)
    ensures forall n :: n in TableMap(tables).entries ==>
      exists i :: LastNamed(tables, n, i) && TableMap(tables).entries[n] == tables[i]
  {
    forall n | n in TableMap(tables).entries
      ensures exists i :: LastNamed(tables, n, i) && TableMap(tables).entries[n] == tables[i]
    {
      var i := TableMapValue(tables, n);
    }
  }

  lemma TableMapValue(tables: seq<Table>, n: string) returns (i: int)
    requires n in TableMap(tables).entries
    ensures LastNamed(tables, n, i) && TableMap(tables).entries[n] == tables[i]
  {
    TableMapAt(tables, n);
    LastIndexNamed(tables, n);
    i := LastIndex(tables, n);
  }

  /** The index of the last table called n, or -1. */
  function LastIndex(tables: seq<Table>, n: string): (i: int)
    ensures -1 <= i < |tables|
    decreases |tables|
  {
    if tables == [] then -1
    else if tables[|tables| - 1].tableName == n then |tables| - 1
    else LastIndex(tables[..|tables| - 1], n)
  }

  lemma {:induction false} LastIndexNamed(tables: seq<Table>, n: string)
    ensures LastIndex(tables, n) >= 0 ==> LastNamed(tables, n, LastIndex(tables, n))
    decreases |tables|
  {
    if tables != [] && tables[|tables| - 1].tableName != n {
      var k := |tables| - 1;
      var init := tables[..k];
      LastIndexNamed(init, n);
      var i := LastIndex(init, n);
      if i >= 0 {
        assert tables[i] == init[i];
        forall j | i < j < |tables| ensures tables[j].tableName != n {
          if j < k {
            assert tables[j] == init[j];
          }
        }
      }
    }
  }

  lemma {:induction false} TableMapAt(tables: seq<Table>, n: string)
    ensures n in TableMap(tables).entries ==> LastIndex(tables, n) >= 0 && TableMap(tables).entries[n] == tables[LastIndex(tables, n)]
    decreases |tables|
  {
    if tables != [] {
      var k := |tables| - 1;
      var init := tables[..k];
      TableMapStep(tables);
      if tables[k].tableName != n {
        TableMapAt(init, n);
        if n in TableMap(init).entries {
          assert tables[LastIndex(init, n)] == init[LastIndex(init, n)];
        }
      }
    }
  }

  /** One more table: its name now maps to it. */
  lemma TableMapStep(tables: seq<Table>)
    requires tables != []
    ensures TableMap(tables).entries
         == TableMap(tables[..|tables| - 1]).entries[tables[|tables| - 1].tableName := tables[|tables| - 1]]
  {
  }

  /**
   * The keys of table_map are the table names without repeats, each at the
   * position of its first occurrence: a repeated name overwrites the value in
   * place.
   */
  lemma {:induction false} TableMapDedup(tables: seq<Table>)
    ensures TableMap(tables).order == Dedup(Map(tables, TableName))
  {
    if tables != [] {
      var n := |tables| - 1;
      var init := tables[..n];
      var names := Map(tables, TableName);
      assert names[..n] == Map(init, TableName);
      TableMapDedup(init);
      TableMapNamed(init, tables[n].tableName);
      if tables[n].tableName in TableMap(init).entries {
        var i :| 0 <= i < |init| && init[i].tableName == tables[n].tableName;
        assert Map(init, TableName)[i] == tables[n].tableName;
      }
    }
  }

  /** With distinct names the keys are exactly the names, in schema order. */
  lemma {:induction false} TableMapOrder(tables: seq<Table>)
    requires Distinct(Map(tables, TableName))
    ensures TableMap(tables).order == Map(tables, TableName)
  {
    if tables != [] {
      var init := tables[..|tables| - 1];
      var names := Map(tables, TableName);
      assert Map(init, TableName) == names[..|tables| - 1];
      assert names == Map(init, TableName) + [names[|tables| - 1]];
      assert Distinct(Map(init, TableName));
      TableMapOrder(init);
      TableMapKeys(init);
      assert names[|tables| - 1] !in Map(init, TableName);
      assert names[|tables| - 1] !in SetOf(TableMap(init).order);
    }
  }

  // ---------------------------------------------------------------------
  // table_alias_map: each table's name, then its aliases, later writes win
  // ---------------------------------------------------------------------

  function AliasesAdded(m: map<string, Table>, aliases: seq<string>, t: Table): map<string, Table> {
    if aliases == [] then m
    else AliasesAdded(m, aliases[..|aliases| - 1], t)[aliases[|aliases| - 1] := t]
  }

  function AliasMap(tables: seq<Table>): map<string, Table> {
    if tables == [] then map[]
    else
      var t := tables[|tables| - 1];
      AliasesAdded(AliasMap(tables[..|tables| - 1])[t.tableName := t], t.aliases, t)
  }

  lemma {:induction false} AliasesAddedMeaning(m: map<string, Table>, aliases: seq<string>, t: Table)
    ensures forall x :: x in AliasesAdded(m, aliases, t) <==> x in m || x in aliases
    ensures forall x :: x in aliases ==> AliasesAdded(m, aliases, t)[x] == t
    ensures forall x :: x in m && x !in aliases ==> AliasesAdded(m, aliases, t)[x] == m[x]
  {
    if aliases != [] {
      AliasesAddedMeaning(m, aliases[..|aliases| - 1], t);
      assert aliases == aliases[..|aliases| - 1] + [aliases[|aliases| - 1]];
    }
  }

  /** A string is a key exactly when it names some table. */
  lemma {:induction false} AliasMapKeys(tables: seq<Table>)
    ensures forall x :: x in AliasMap(tables) <==> exists i :: 0 <= i < |tables| && Names(tables[i], x)
  {
    if tables != [] {
      var init := tables[..|tables| - 1];
      var t := tables[|tables| - 1];
      AliasMapKeys(init);
      var prev := AliasMap(init);
      AliasesAddedMeaning(prev[t.tableName := t], t.aliases, t);
      forall x ensures x in AliasMap(tables) <==> exists i :: 0 <= i < |tables| && Names(tables[i], x) {
        if x in AliasMap(tables) && !Names(t, x) {
          assert x in prev;
          var i :| 0 <= i < |init| && Names(init[i], x);
          assert Names(tables[i], x);
        }
        if (exists i :: 0 <= i < |tables| && Names(tables[i], x)) && !Names(t, x) {
          var i :| 0 <= i < |tables| && Names(tables[i], x);
          assert i < |init| && Names(init[i], x);
        }
      }
    }
  }

  /** Each key maps to the last table naming it: later names and aliases overwrite earlier ones. */
  lemma {:induction false} AliasMapValues(tables: seq<Table>)
    ensures forall x :: x in AliasMap(tables) ==> exists i :: LastNamer(tables, x, i) && AliasMap(tables)[x] == tables[i]
  {
    if tables != [] {
      var init := tables[..|tables| - 1];
      var t := tables[|tables| - 1];
      AliasMapValues(init);
      var prev := AliasMap(init);
      AliasesAddedMeaning(prev[t.tableName := t], t.aliases, t);
      forall x | x in AliasMap(tables) ensures exists i :: LastNamer(tables, x, i) && AliasMap(tables)[x] == tables[i] {
        if Names(t, x) {
          assert LastNamer(tables, x, |tables| - 1);
        } else {
          assert x in prev;
          var i :| LastNamer(init, x, i) && prev[x] == init[i];
          assert LastNamer(tables, x, i);
        }
      }
    }
  }

  // ---------------------------------------------------------------------
  // find_column / find_table results
  // ---------------------------------------------------------------------

  /** {"table": ..., "column": ..., "meta": ...} */
  datatype ColumnMatch = ColumnMatch(table: string, column: string, meta: Column)

  /** {"table": ..., "aliases": ..., "display_name": ..., "meta": ...} */
  datatype TableMatch = TableMatch(table: string, aliases: seq<string>, displayName: string, meta: Table)

  /** col_key == column_name or column_name in col.aliases */
  predicate ColumnNamed(key: string, col: Column, name: string) {
    key == name || name in col.aliases
  }

  /** The matches among the given column keys of one table. */
  function TableColumnMatches(t: Table, keys: seq<string>, name: string): seq<ColumnMatch>
    requires forall k :: k in keys ==> k in t.columns.entries
  {
    if keys == [] then []
    else
      var k := keys[|keys| - 1];
      TableColumnMatches(t, keys[..|keys| - 1], name)
        + (if ColumnNamed(k, t.columns.entries[k], name) then [ColumnMatch(t.tableName, k, t.columns.entries[k])] else [])
  }

  function ColumnMatches(tables: seq<Table>, name: string): seq<ColumnMatch>
    requires WellFormed(tables)
  {
    if tables == [] then []
    else
      var t := tables[|tables| - 1];
      ColumnMatches(tables[..|tables| - 1], name) + TableColumnMatches(t, t.columns.order, name)
  }

  /** m is the record of a column of t that the name matches. */
  ghost predicate MatchesIn(t: Table, name: string, m: ColumnMatch) {
    m.table == t.tableName && m.column in t.columns.entries && m.meta == t.columns.entries[m.column]
    && ColumnNamed(m.column, m.meta, name)
  }

  /** m is the record of a column of some table that the name matches. */
  ghost predicate IsColumnMatch(tables: seq<Table>, name: string, m: ColumnMatch) {
    exists i :: 0 <= i < |tables| && MatchesIn(tables[i], name, m)
  }

  lemma {:induction false} TableColumnMatchesMeaning(t: Table, keys: seq<string>, name: string)
    requires forall k :: k in keys ==> k in t.columns.entries
    ensures forall m :: m in TableColumnMatches(t, keys, name) <==>
      m.table == t.tableName && m.column in keys && m.meta == t.columns.entries[m.column]
      && ColumnNamed(m.column, m.meta, name)
  {
    if keys != [] {
      TableColumnMatchesMeaning(t, keys[..|keys| - 1], name);
      assert keys == keys[..|keys| - 1] + [keys[|keys| - 1]];
    }
  }

  /** find_column reports exactly the (table, key) pairs whose key or aliases match. */
  lemma ColumnMatchesMeaning(tables: seq<Table>, name: string)
    requires WellFormed(tables)
    ensures forall m :: m in ColumnMatches(tables, name) <==> IsColumnMatch(tables, name, m)
  {
    forall m ensures m in ColumnMatches(tables, name) <==> IsColumnMatch(tables, name, m) {
      if m in ColumnMatches(tables, name) {
        var i := MatchFound(tables, name, m);
      }
      if IsColumnMatch(tables, name, m) {
        var i :| 0 <= i < |tables| && MatchesIn(tables[i], name, m);
        MatchListed(tables, name, m, i);
      }
    }
  }

  /** Every reported record comes from some table. */
  lemma {:induction false} MatchFound(tables: seq<Table>, name: string, m: ColumnMatch) returns (i: nat)
    requires WellFormed(tables) && m in ColumnMatches(tables, name)
    ensures i < |tables| && MatchesIn(tables[i], name, m)
  {
    var k := |tables| - 1;
    var init := tables[..k];
    var t := tables[k];
    if m in ColumnMatches(init, name) {
      i := MatchFound(init, name, m);
      assert tables[i] == init[i];
    } else {
      TableColumnMatchesMeaning(t, t.columns.order, name);
      i := k;
    }
  }

  /** Every matching column of every table is reported. */
  lemma {:induction false} MatchListed(tables: seq<Table>, name: string, m: ColumnMatch, i: nat)
    requires WellFormed(tables) && i < |tables| && MatchesIn(tables[i], name, m)
    ensures m in ColumnMatches(tables, name)
  {
    var k := |tables| - 1;
    var init := tables[..k];
    var t := tables[k];
    if i < k {
      assert init[i] == tables[i];
      MatchListed(init, name, m, i);
    } else {
      TableColumnMatchesMeaning(t, t.columns.order, name);
      assert Valid(t.columns);
    }
  }

  /** table.table_name == identifier or identifier in table.aliases */
  function TableMatcher(identifier: string): Table -> bool {
    t => Names(t, identifier)
  }

  function ToTableMatch(t: Table): TableMatch {
    TableMatch(t.tableName, t.aliases, t.displayName, t)
  }

  /** find_table reports, in schema order, every table the identifier names. */
  function TableMatches(tables: seq<Table>, identifier: string): seq<TableMatch> {
    Map(Filter(tables, TableMatcher(identifier)), ToTableMatch)
  }

  /** find_table reports exactly the tables the identifier names, as name, aliases, display name. */
  lemma TableMatchesMeaning(tables: seq<Table>, identifier: string)
    ensures forall m :: m in TableMatches(tables, identifier) <==>
      exists i :: 0 <= i < |tables| && Names(tables[i], identifier) && m == ToTableMatch(tables[i])
  {
    var named := Filter(tables, TableMatcher(identifier));
    FilterMembers(tables, TableMatcher(identifier));
    var r := TableMatches(tables, identifier);
    forall m ensures m in r <==> exists i :: 0 <= i < |tables| && Names(tables[i], identifier) && m == ToTableMatch(tables[i]) {
      if m in r {
        var j :| 0 <= j < |r| && r[j] == m;
        assert named[j] in tables && TableMatcher(identifier)(named[j]);
        var i :| 0 <= i < |tables| && tables[i] == named[j];
        assert Names(tables[i], identifier);
      }
      if exists i :: 0 <= i < |tables| && Names(tables[i], identifier) && m == ToTableMatch(tables[i]) {
        var i :| 0 <= i < |tables| && Names(tables[i], identifier) && m == ToTableMatch(tables[i]);
        assert tables[i] in named;
        var j :| 0 <= j < |named| && named[j] == tables[i];
        assert r[j] == m;
      }
    }
  }

  /** The first table, in schema order, whose alias list holds the alias. */
  ghost predicate FirstWithAlias(tables: seq<Table>, alias: string, i: int) {
    0 <= i < |tables| && alias in tables[i].aliases && forall j :: 0 <= j < i ==> alias !in tables[j].aliases
  }

  // ---------------------------------------------------------------------
  // The loader
  // ---------------------------------------------------------------------

  /** The inner loop of find_column: the columns of one table the name matches, in column order. */
  method ScanColumns(t: Table, name: string) returns (r: seq<ColumnMatch>)
    requires Dicts.Valid(t.columns)
    ensures r == TableColumnMatches(t, t.columns.order, name)
  {
    var items := Items(t.columns);
    r := [];
    var j := 0;
    while j < |items|
      invariant 0 <= j <= |items|
      invariant r == TableColumnMatches(t, t.columns.order[..j], name)
    {
      var (key, col) := items[j];
      assert t.columns.order[..j + 1][..j] == t.columns.order[..j];
      if key == name || name in col.aliases {
        r := r + [ColumnMatch(t.tableName, key, col)];
      }
      j := j + 1;
    }
    assert t.columns.order[..j] == t.columns.order;
  }

  class SchemaLoader {
    /** schema.tables, in file order */
    const tables: seq<Table>
    const tableMap: Dict<string, Table>
    const aliasMap: map<string, Table>

    ghost predicate Valid()
    {
      WellFormed(tables) && tableMap == TableMap(tables) && aliasMap == AliasMap(tables)
    }

    /** __init__ after the schema has been read and validated. */
    constructor (schema: seq<Table>)
      requires WellFormed(schema)
      ensures tables == schema && Valid()
    {
      var m: map<string, Table> := map[];
      var i := 0;
      while i < |schema|
        invariant 0 <= i <= |schema|
        invariant m == AliasMap(schema[..i])
      {
        var t := schema[i];
        assert schema[..i + 1][..i] == schema[..i];
        m := m[t.tableName := t];
        var j := 0;
        while j < |t.aliases|
          invariant 0 <= j <= |t.aliases|
          invariant m == AliasesAdded(AliasMap(schema[..i])[t.tableName := t], t.aliases[..j], t)
        {
          assert t.aliases[..j + 1][..j] == t.aliases[..j];
          m := m[t.aliases[j] := t];
          j := j + 1;
        }
        assert t.aliases[..j] == t.aliases;
        i := i + 1;
      }
      assert schema[..i] == schema;
      tables := schema;
      tableMap := TableMap(schema);
      aliasMap := m;
    }

    /** list_tables: every table name once, in the order of its first occurrence in the schema. */
    function ListTables(): (r: seq<string>)
      requires Valid()
      ensures Distinct(r)
      ensures SetOf(r) == SetOf(Map(tables, TableName))
      ensures Distinct(Map(tables, TableName)) ==> r == Map(tables, TableName)
      ensures r == Dedup(Map(tables, TableName))
    {
      TableMapKeys(tables);
      TableMapDedup(tables);
      if Distinct(Map(tables, TableName)) then TableMapOrder(tables); tableMap.order
      else tableMap.order
    }

    /** get_table: by name or alias; defined exactly for the strings naming a table. */
    function GetTable(x: string): (r: Option<Table>)
      requires Valid()
      ensures r.Some? <==> exists i :: 0 <= i < |tables| && Names(tables[i], x)
      ensures r.Some? ==> exists i :: LastNamer(tables, x, i) && r.value == tables[i]
    {
      AliasMapKeys(tables);
      AliasMapValues(tables);
      if x in aliasMap then Some(aliasMap[x]) else None
    }

    /** get_table_by_name_only: resolves exactly the listed names. */
    function GetTableByNameOnly(n: string): (r: Option<Table>)
      requires Valid()
      ensures r.Some? <==> n in ListTables()
      ensures r.Some? ==> exists i :: LastNamed(tables, n, i) && r.value == tables[i]
    {
      TableMapKeys(tables);
      TableMapValues(tables);
      if n in tableMap.entries then Some(tableMap.entries[n]) else None
    }

    /** find_table_by_alias: the first table listing the alias, scanning in order. */
    method FindTableByAlias(alias: string) returns (r: Option<Table>)
      ensures r.Some? ==> exists i :: FirstWithAlias(tables, alias, i) && r.value == tables[i]
      ensures r.None? ==> forall i :: 0 <= i < |tables| ==> alias !in tables[i].aliases
    {
      var i := 0;
      while i < |tables|
        invariant 0 <= i <= |tables|
        invariant forall j :: 0 <= j < i ==> alias !in tables[j].aliases
      {
        if alias in tables[i].aliases {
          assert FirstWithAlias(tables, alias, i);
          return Some(tables[i]);
        }
        i := i + 1;
      }
      return None;
    }

    /** get_columns: the columns of the table the identifier resolves to. */
    function GetColumns(x: string): (r: Option<Dict<string, Column>>)
      requires Valid()
      ensures r.Some? <==> GetTable(x).Some?
      ensures r.Some? ==> Dicts.Valid(r.value) && r.value == GetTable(x).value.columns
    {
      match GetTable(x)
      case None => None
      case Some(t) =>
        assert exists i :: LastNamer(tables, x, i) && t == tables[i];
        Some(t.columns)
    }

    /** find_column: the outer loop over the tables; ScanColumns is the inner one. */
    method FindColumn(name: string) returns (r: seq<ColumnMatch>)
      requires Valid()
      ensures r == ColumnMatches(tables, name)
    {
      r := [];
      var i := 0;
      while i < |tables|
        invariant 0 <= i <= |tables|
        invariant r == ColumnMatches(tables[..i], name)
      {
        var t := tables[i];
        assert tables[..i + 1][..i] == tables[..i];
        assert Dicts.Valid(t.columns);
        var found := ScanColumns(t, name);
        r := r + found;
        i := i + 1;
      }
      assert tables[..i] == tables;
    }

    /** find_table: one loop appending every table the identifier names. */
    method FindTable(identifier: string) returns (r: seq<TableMatch>)
      ensures r == TableMatches(tables, identifier)
    {
      r := [];
      var i := 0;
      while i < |tables|
        invariant 0 <= i <= |tables|
        invariant r == Map(Filter(tables[..i], TableMatcher(identifier)), ToTableMatch)
      {
        var t := tables[i];
        assert tables[..i + 1] == tables[..i] + [t];
        FilterSnoc(tables[..i], t, TableMatcher(identifier));
        if t.tableName == identifier || identifier in t.aliases {
          r := r + [TableMatch(t.tableName, t.aliases, t.displayName, t)];
        }
        i := i + 1;
      }
      assert tables[..i] == tables;
    }

    /**
     * describe_table: None for an unknown identifier or a table without
     * columns, else each column key mapped to its description, in column order.
     */
    function DescribeTable(x: string): (r: Option<Dict<string, string>>)
      requires Valid()
      ensures r.None? <==> GetTable(x).None? || GetTable(x).value.columns.order == []
      ensures r.Some? ==>
        var cols := GetTable(x).value.columns;
        && Dicts.Valid(r.value) && r.value.order == cols.order
        && forall k :: k in r.value.entries ==> k in cols.entries && r.value.entries[k] == cols.entries[k].description
    {
      match GetColumns(x)
      case None => None
      case Some(cols) =>
        if cols.order == [] then None
        else
          Some(Dict(cols.order, map k | k in cols.entries :: cols.entries[k].description))
    }
  }

  /**
   * find_table_by_alias can disagree with get_table: when two tables list
   * the same alias, the first wins the scan and the second wins the map.
   */
  method AliasCollision(a: Table, b: Table, alias: string) returns (byMap: Option<Table>, byScan: Option<Table>)
    requires Dicts.Valid(a.columns) && Dicts.Valid(b.columns)
    requires a != b && alias in a.aliases && alias in b.aliases
    ensures byMap == Some(b) && byScan == Some(a)
  {
    var loader := new SchemaLoader([a, b]);
    byMap := loader.GetTable(alias);
    byScan := loader.FindTableByAlias(alias);
    ghost var i :| LastNamer([a, b], alias, i) && byMap.value == [a, b][i];
    assert i == 1 by {
      assert Names([a, b][1], alias);
    }
    ghost var j :| FirstWithAlias([a, b], alias, j) && byScan.value == [a, b][j];
    assert j == 0 by {
      assert alias in [a, b][0].aliases;
    }
  }
}
