// The undirected table-relationship graph of the schema manager
// (RelationshipGraph.add_relationship and _build_relationship_graph in
// sql_generator/core/schema_manager.py).

module RelationshipGraphs {
  import opened Wrappers
  import opened Strings

  type Adjacency = map<string, set<string>>

  /** adjacency_list[t] of a defaultdict(set): the empty set for an unknown table. */
  function Nbrs(adj: Adjacency, t: string): set<string> {
    if t in adj then adj[t] else {}
  }

  /** Every edge is stored in both directions and both ends are keys. */
  ghost predicate Symmetric(adj: Adjacency) {
    forall a, b :: a in adj && b in adj[a] ==> b in adj && a in adj[b]
  }

  /** The adjacency once table t has a key (`if t not in adjacency_list: ... = set()`). */
  function WithKey(adj: Adjacency, t: string): (r: Adjacency)
    ensures t in r
  {
    if t in adj then adj else adj[t := {}]
  }

  /** The adjacency after add_relationship(t1, t2). */
  function Link(adj: Adjacency, t1: string, t2: string): Adjacency {
    var b := WithKey(WithKey(adj, t1), t2);
    var c := b[t1 := b[t1] + {t2}];
    c[t2 := c[t2] + {t1}]
  }

  /**
   * add_relationship creates both keys and adds exactly the edge t1 - t2 in
   * both directions; no other adjacency changes.
   */
  lemma LinkMeaning(adj: Adjacency, t1: string, t2: string, a: string, b: string)
    ensures Link(adj, t1, t2).Keys == adj.Keys + {t1, t2}
    ensures b in Nbrs(Link(adj, t1, t2), a) <==> b in Nbrs(adj, a) || (a == t1 && b == t2) || (a == t2 && b == t1)
  {
  }

  /** Linking keeps the graph symmetric. */
  lemma LinkSymmetric(adj: Adjacency, t1: string, t2: string)
    requires Symmetric(adj)
    ensures Symmetric(Link(adj, t1, t2))
  {
    var r := Link(adj, t1, t2);
    forall a, b | a in r && b in r[a] ensures b in r && a in r[b] {
      LinkMeaning(adj, t1, t2, a, b);
      LinkMeaning(adj, t1, t2, b, a);
    }
  }

  datatype RelationshipKind = ForeignKey | Direct

  /** The metadata _build_relationship_graph attaches to each declared relationship. */
  datatype RelationshipMetadata = RelationshipMetadata(
    sourceTable: string,
    targetTable: string,
    relationshipString: string,
    kind: RelationshipKind)

  /** A 'table_patterns' entry of the configuration: a table and its relationship strings. */
  datatype TableDeclaration = TableDeclaration(tableName: string, relationships: seq<string>)

  /** "table.column" names the table before the first '.', a plain "table" names itself. */
  function TargetTable(relationship: string): (t: string)
    ensures '.' !in t
    ensures '.' in relationship ==> t == relationship[..IndexOf(relationship, '.')]
    ensures '.' !in relationship ==> t == relationship
  {
    SplitHead(relationship, '.');
    if '.' in relationship then Split(relationship, '.')[0] else relationship
  }

  lemma {:induction false} IndexOfAfter(t: string, rest: string, c: char)
    requires c !in t
    ensures IndexOf(t + [c] + rest, c) == |t|
    decreases |t|
  {
    if t != [] {
      assert (t + [c] + rest)[1..] == t[1..] + [c] + rest;
      IndexOfAfter(t[1..], rest, c);
    }
  }

  /** "table.column" with a dot-free table names that table. */
  lemma TargetOfDotted(table: string, column: string)
    requires '.' !in table
    ensures TargetTable(table + "." + column) == table
  {
    IndexOfAfter(table, column, '.');
    assert (table + "." + column)[..|table|] == table;
  }

  function KindOf(relationship: string): RelationshipKind {
    if '.' in relationship then ForeignKey else Direct
  }

  function MetadataFor(tableName: string, relationship: string): RelationshipMetadata {
    RelationshipMetadata(tableName, TargetTable(relationship), relationship, KindOf(relationship))
  }

  /** The (table, relationship string) pairs of the declarations, in configuration order. */
  function Declared(decls: seq<TableDeclaration>): (es: seq<(string, string)>)
    decreases |decls|
  {
    if decls == [] then []
    else
      var last := decls[|decls| - 1];
      Declared(decls[..|decls| - 1]) + PairsOf(last, |last.relationships|)
  }

  /** Every relationship string of every declaration is among the declared pairs. */
  lemma {:induction false} DeclaredComplete(decls: seq<TableDeclaration>, d: nat, j: nat)
    requires d < |decls| && j < |decls[d].relationships|
    ensures (decls[d].tableName, decls[d].relationships[j]) in Declared(decls)
    decreases |decls|
  {
    var init := decls[..|decls| - 1];
    var last := decls[|decls| - 1];
    if d < |init| {
      assert init[d] == decls[d];
      DeclaredComplete(init, d, j);
    } else {
      assert PairsOf(last, |last.relationships|)[j] == (decls[d].tableName, decls[d].relationships[j]);
    }
  }

  /** Every declared pair comes from some declaration. */
  lemma {:induction false} DeclaredSound(decls: seq<TableDeclaration>, e: (string, string))
    requires e in Declared(decls)
    ensures exists d :: 0 <= d < |decls| && decls[d].tableName == e.0 && e.1 in decls[d].relationships
    decreases |decls|
  {
    var init := decls[..|decls| - 1];
    var last := decls[|decls| - 1];
    if e in Declared(init) {
      DeclaredSound(init, e);
      var d :| 0 <= d < |init| && init[d].tableName == e.0 && e.1 in init[d].relationships;
      assert decls[d] == init[d];
    } else {
      assert e in PairsOf(last, |last.relationships|);
      assert decls[|decls| - 1] == last;
    }
  }

  /** The adjacency after linking every declared pair in order. */
  function Links(es: seq<(string, string)>): Adjacency
    decreases |es|
  {
    if es == [] then map[]
    else
      var e := es[|es| - 1];
      Link(Links(es[..|es| - 1]), e.0, TargetTable(e.1))
  }

  /** The metadata after storing every declared pair in order (later keys overwrite). */
  function MetadataOf(es: seq<(string, string)>): map<(string, string), RelationshipMetadata>
    decreases |es|
  {
    if es == [] then map[]
    else
      var e := es[|es| - 1];
      var m := MetadataFor(e.0, e.1);
      MetadataOf(es[..|es| - 1])[(e.0, m.targetTable) := m][(m.targetTable, e.0) := m]
  }

  /** The declared graph is symmetric and its edges are exactly the declared pairs. */
  lemma {:induction false} LinksMeaning(es: seq<(string, string)>, a: string, b: string)
    ensures Symmetric(Links(es))
    ensures b in Nbrs(Links(es), a) <==>
      exists k :: 0 <= k < |es| && ((es[k].0 == a && TargetTable(es[k].1) == b) || (es[k].0 == b && TargetTable(es[k].1) == a))
    decreases |es|
  {
    if es != [] {
      var init := es[..|es| - 1];
      var e := es[|es| - 1];
      LinksMeaning(init, a, b);
      LinkSymmetric(Links(init), e.0, TargetTable(e.1));
      LinkMeaning(Links(init), e.0, TargetTable(e.1), a, b);
      assert forall k :: 0 <= k < |init| ==> init[k] == es[k];
    }
  }

  /**
   * Every stored metadata entry describes a declared relationship: its key
   * joins the declaring table and the relationship's target in one of the
   * two directions, and its type is foreign_key exactly when the string holds a '.'.
   */
  lemma {:induction false} MetadataMeaning(es: seq<(string, string)>, key: (string, string))
    requires key in MetadataOf(es)
    ensures var m := MetadataOf(es)[key];
      && (m.sourceTable, m.relationshipString) in es
      && m.targetTable == TargetTable(m.relationshipString)
      && (key == (m.sourceTable, m.targetTable) || key == (m.targetTable, m.sourceTable))
      && (m.kind == ForeignKey <==> '.' in m.relationshipString)
    decreases |es|
  {
    var init := es[..|es| - 1];
    var e := es[|es| - 1];
    var m := MetadataFor(e.0, e.1);
    if key != (e.0, m.targetTable) && key != (m.targetTable, e.0) {
      MetadataMeaning(init, key);
      assert forall x :: x in init ==> x in es;
    }
  }

  class RelationshipGraph {
    var adjacency: Adjacency
    var metadata: map<(string, string), RelationshipMetadata>

    constructor ()
      ensures adjacency == map[] && metadata == map[]
    {
      adjacency := map[];
      metadata := map[];
    }

    /** add_relationship: links both ways; metadata is stored under both orders only when given. */
    method AddRelationship(t1: string, t2: string, md: Option<RelationshipMetadata>)
      modifies this
      ensures adjacency == Link(old(adjacency), t1, t2)
      ensures md.Some? ==> metadata == old(metadata)[(t1, t2) := md.value][(t2, t1) := md.value]
      ensures md.None? ==> metadata == old(metadata)
    {
      if t1 !in adjacency {
        adjacency := adjacency[t1 := {}];
      }
      if t2 !in adjacency {
        adjacency := adjacency[t2 := {}];
      }
      adjacency := adjacency[t1 := adjacency[t1] + {t2}];
      adjacency := adjacency[t2 := adjacency[t2] + {t1}];
      if md.Some? {
        metadata := metadata[(t1, t2) := md.value];
        metadata := metadata[(t2, t1) := md.value];
      }
    }
  }

  lemma LinksSnoc(es: seq<(string, string)>, e: (string, string))
    ensures Links(es + [e]) == Link(Links(es), e.0, TargetTable(e.1))
  {
    assert (es + [e])[..|es|] == es;
  }

  lemma MetadataSnoc(es: seq<(string, string)>, e: (string, string))
    ensures MetadataOf(es + [e]) ==
      MetadataOf(es)[(e.0, TargetTable(e.1)) := MetadataFor(e.0, e.1)][(TargetTable(e.1), e.0) := MetadataFor(e.0, e.1)]
  {
    assert (es + [e])[..|es|] == es;
  }

  /** The first n pairs contributed by one declaration. */
  function PairsOf(d: TableDeclaration, n: nat): seq<(string, string)>
    requires n <= |d.relationships|
  {
    seq(n, j requires 0 <= j < n => (d.tableName, d.relationships[j]))
  }

  /** One more relationship string of a declaration: one more link and two more metadata entries. */
  lemma DeclaredStep(before: seq<(string, string)>, d: TableDeclaration, j: nat)
    requires j < |d.relationships|
    ensures Links(before + PairsOf(d, j + 1))
         == Link(Links(before + PairsOf(d, j)), d.tableName, TargetTable(d.relationships[j]))
    ensures MetadataOf(before + PairsOf(d, j + 1))
         == MetadataOf(before + PairsOf(d, j))[(d.tableName, TargetTable(d.relationships[j])) := MetadataFor(d.tableName, d.relationships[j])]
                                              [(TargetTable(d.relationships[j]), d.tableName) := MetadataFor(d.tableName, d.relationships[j])]
  {
    var e := (d.tableName, d.relationships[j]);
    assert PairsOf(d, j + 1) == PairsOf(d, j) + [e];
    assert before + PairsOf(d, j + 1) == (before + PairsOf(d, j)) + [e];
    LinksSnoc(before + PairsOf(d, j), e);
    MetadataSnoc(before + PairsOf(d, j), e);
  }

  /** _build_relationship_graph: links every declared table to each relationship's target, in order. */
  method BuildRelationshipGraph(decls: seq<TableDeclaration>) returns (g: RelationshipGraph)
    ensures fresh(g)
    ensures g.adjacency == Links(Declared(decls))
    ensures g.metadata == MetadataOf(Declared(decls))
  {
    g := new RelationshipGraph();
    var i := 0;
    while i < |decls|
      invariant 0 <= i <= |decls|
      invariant g.adjacency == Links(Declared(decls[..i]))
      invariant g.metadata == MetadataOf(Declared(decls[..i]))
    {
      assert decls[..i + 1][..i] == decls[..i];
      AddDeclaration(g, decls[i], Declared(decls[..i]));
      i := i + 1;
    }
    assert decls[..i] == decls;
  }

  /** The inner loop of _build_relationship_graph over one table's relationship strings. */
  method AddDeclaration(g: RelationshipGraph, d: TableDeclaration, ghost before: seq<(string, string)>)
    requires g.adjacency == Links(before) && g.metadata == MetadataOf(before)
    modifies g
    ensures g.adjacency == Links(before + PairsOf(d, |d.relationships|))
    ensures g.metadata == MetadataOf(before + PairsOf(d, |d.relationships|))
  {
    assert before + PairsOf(d, 0) == before;
    var j := 0;
    while j < |d.relationships|
      invariant 0 <= j <= |d.relationships|
      invariant g.adjacency == Links(before + PairsOf(d, j))
      invariant g.metadata == MetadataOf(before + PairsOf(d, j))
    {
      AddDeclared(g, d, j, before);
      j := j + 1;
    }
  }

  /** The loop body on the j-th relationship string: its target is the text before the first '.'. */
  method AddDeclared(g: RelationshipGraph, d: TableDeclaration, j: nat, ghost before: seq<(string, string)>)
    requires j < |d.relationships|
    requires g.adjacency == Links(before + PairsOf(d, j)) && g.metadata == MetadataOf(before + PairsOf(d, j))
    modifies g
    ensures g.adjacency == Links(before + PairsOf(d, j + 1))
    ensures g.metadata == MetadataOf(before + PairsOf(d, j + 1))
  {
    var relationship := d.relationships[j];
    var target := if '.' in relationship then Split(relationship, '.')[0] else relationship;
    var md := RelationshipMetadata(d.tableName, target, relationship, if '.' in relationship then ForeignKey else Direct);
    assert target == TargetTable(relationship) && md == MetadataFor(d.tableName, relationship);
    DeclaredStep(before, d, j);
    g.AddRelationship(d.tableName, target, Some(md));
  }
}
