// The relationship-completion scenario of simple_test.py and direct_test.py:
// four tables declared as the chain cust - ord_hdr - ord_ln - prd_mstr, and
// the completion of [cust, prd_mstr].

module CompletionScenario {
  import opened Strings
  import opened Sequences
  import opened RelationshipGraphs
  import opened PathFinding

  /** The 'table_patterns' of the scenario, with table names c, oh, ol, pm and join columns k1, k2, k3. */
  function ChainDeclarations(c: string, oh: string, ol: string, pm: string, k1: string, k2: string, k3: string)
    : seq<TableDeclaration>
  {
    [TableDeclaration(c, [oh + "." + k1]),
     TableDeclaration(oh, [c + "." + k1, ol + "." + k2]),
     TableDeclaration(ol, [oh + "." + k2, pm + "." + k3]),
     TableDeclaration(pm, [ol + "." + k3])]
  }

  function ChainPairs(c: string, oh: string, ol: string, pm: string, k1: string, k2: string, k3: string)
    : seq<(string, string)>
  {
    [(c, oh + "." + k1), (oh, c + "." + k1), (oh, ol + "." + k2),
     (ol, oh + "." + k2), (ol, pm + "." + k3), (pm, ol + "." + k3)]
  }

  /** The chain as an adjacency map. */
  function ChainMap(c: string, oh: string, ol: string, pm: string): Adjacency {
    map[c := {oh}, oh := {c, ol}, ol := {oh, pm}, pm := {ol}]
  }

  /** Four different table names, none holding a '.'. */
  predicate ChainNames(c: string, oh: string, ol: string, pm: string) {
    && '.' !in c && '.' !in oh && '.' !in ol && '.' !in pm
    && c != oh && c != ol && c != pm && oh != ol && oh != pm && ol != pm
  }

  lemma ChainDeclared(c: string, oh: string, ol: string, pm: string, k1: string, k2: string, k3: string)
    ensures Declared(ChainDeclarations(c, oh, ol, pm, k1, k2, k3)) == ChainPairs(c, oh, ol, pm, k1, k2, k3)
  {
    var d := ChainDeclarations(c, oh, ol, pm, k1, k2, k3);
    var es := ChainPairs(c, oh, ol, pm, k1, k2, k3);
    assert d[..0] == [];
    assert Declared(d[..1]) == es[..1];
    assert Declared(d[..2]) == es[..3];
    assert d[..3][..2] == d[..2] && d[..3][2] == d[2];
    assert PairsOf(d[2], 2) == es[3..5];
    assert es[..5] == es[..3] + es[3..5];
    assert Declared(d[..3]) == es[..5];
    assert d[..4] == d;
  }

  lemma ChainTargets(c: string, oh: string, ol: string, pm: string, k1: string, k2: string, k3: string)
    requires ChainNames(c, oh, ol, pm)
    ensures TargetTable(oh + "." + k1) == oh && TargetTable(c + "." + k1) == c
    ensures TargetTable(ol + "." + k2) == ol && TargetTable(oh + "." + k2) == oh
    ensures TargetTable(pm + "." + k3) == pm && TargetTable(ol + "." + k3) == ol
  {
    TargetOfDotted(oh, k1);
    TargetOfDotted(c, k1);
    TargetOfDotted(ol, k2);
    TargetOfDotted(oh, k2);
    TargetOfDotted(pm, k3);
    TargetOfDotted(ol, k3);
  }

  /** Linking an edge already present in both directions changes nothing. */
  lemma LinkPresent(adj: Adjacency, a: string, b: string)
    requires a in adj && b in adj && b in adj[a] && a in adj[b]
    ensures Link(adj, a, b) == adj
  {
    assert adj[a] + {b} == adj[a] && adj[b] + {a} == adj[b];
    assert adj[a := adj[a]] == adj;
    assert adj[b := adj[b]] == adj;
  }

  lemma LinkEmpty(a: string, b: string)
    requires a != b
    ensures Link(map[], a, b) == map[a := {b}, b := {a}]
  {
    assert {} + {b} == {b} && {} + {a} == {a};
  }

  lemma ChainLinks(c: string, oh: string, ol: string, pm: string,
                   r1: string, r2: string, r3: string, r4: string, r5: string, r6: string)
    requires ChainNames(c, oh, ol, pm)
    requires TargetTable(r1) == oh && TargetTable(r2) == c && TargetTable(r3) == ol
    requires TargetTable(r4) == oh && TargetTable(r5) == pm && TargetTable(r6) == ol
    ensures Links([(c, r1), (oh, r2), (oh, r3), (ol, r4), (ol, r5), (pm, r6)]) == ChainMap(c, oh, ol, pm)
  {
    var es := [(c, r1), (oh, r2), (oh, r3), (ol, r4), (ol, r5), (pm, r6)];
    ChainLinksFirst(c, oh, ol, es);
    ChainLinksLast(c, oh, ol, pm, es);
    assert es[..6] == es;
  }

  /** The first three pairs link c - oh and oh - ol. */
  lemma ChainLinksFirst(c: string, oh: string, ol: string, es: seq<(string, string)>)
    requires c != oh && c != ol && oh != ol && |es| >= 3
    requires es[0].0 == c && TargetTable(es[0].1) == oh && es[1].0 == oh && TargetTable(es[1].1) == c
    requires es[2].0 == oh && TargetTable(es[2].1) == ol
    ensures Links(es[..3]) == map[c := {oh}, oh := {c, ol}, ol := {oh}]
  {
    var m1 := map[c := {oh}, oh := {c}];
    LinksPrefix(es, 0);
    assert es[..0] == [];
    LinkEmpty(c, oh);
    LinksPrefix(es, 1);
    LinkPresent(m1, oh, c);
    LinksPrefix(es, 2);
    LinkSecond(c, oh, ol);
  }

  /** The last three pairs add ol - pm. */
  lemma ChainLinksLast(c: string, oh: string, ol: string, pm: string, es: seq<(string, string)>)
    requires ChainNames(c, oh, ol, pm) && |es| == 6
    requires Links(es[..3]) == map[c := {oh}, oh := {c, ol}, ol := {oh}]
    requires es[3].0 == ol && TargetTable(es[3].1) == oh && es[4].0 == ol && TargetTable(es[4].1) == pm
    requires es[5].0 == pm && TargetTable(es[5].1) == ol
    ensures Links(es[..6]) == ChainMap(c, oh, ol, pm)
  {
    var m3 := map[c := {oh}, oh := {c, ol}, ol := {oh}];
    LinksPrefix(es, 3);
    LinkPresent(m3, ol, oh);
    LinksPrefix(es, 4);
    LinkThird(c, oh, ol, pm);
    LinksPrefix(es, 5);
    LinkPresent(ChainMap(c, oh, ol, pm), pm, ol);
  }

  /** The links of one more declared pair of a list. */
  lemma LinksPrefix(es: seq<(string, string)>, k: nat)
    requires k < |es|
    ensures Links(es[..k + 1]) == Link(Links(es[..k]), es[k].0, TargetTable(es[k].1))
  {
    assert es[..k + 1][..k] == es[..k];
  }

  lemma LinkSecond(c: string, oh: string, ol: string)
    requires c != oh && c != ol && oh != ol
    ensures Link(map[c := {oh}, oh := {c}], oh, ol) == map[c := {oh}, oh := {c, ol}, ol := {oh}]
  {
    var m1 := map[c := {oh}, oh := {c}];
    var r := Link(m1, oh, ol);
    var want := map[c := {oh}, oh := {c, ol}, ol := {oh}];
    var b := m1[ol := {}];
    assert WithKey(WithKey(m1, oh), ol) == b;
    var d := b[oh := b[oh] + {ol}];
    assert r == d[ol := d[ol] + {oh}];
    assert b[oh] + {ol} == {c, ol};
    assert d[ol] + {oh} == {oh};
    assert r.Keys == want.Keys;
    assert r[c] == want[c] && r[oh] == want[oh] && r[ol] == want[ol];
  }

  lemma LinkThird(c: string, oh: string, ol: string, pm: string)
    requires ChainNames(c, oh, ol, pm)
    ensures Link(map[c := {oh}, oh := {c, ol}, ol := {oh}], ol, pm) == ChainMap(c, oh, ol, pm)
  {
    var m3 := map[c := {oh}, oh := {c, ol}, ol := {oh}];
    var r := Link(m3, ol, pm);
    var want := ChainMap(c, oh, ol, pm);
    var b := m3[pm := {}];
    assert WithKey(WithKey(m3, ol), pm) == b;
    var d := b[ol := b[ol] + {pm}];
    assert r == d[pm := d[pm] + {ol}];
    assert b[ol] + {pm} == {oh, pm};
    assert d[pm] + {ol} == {ol};
    assert r.Keys == want.Keys;
    assert r[c] == want[c] && r[oh] == want[oh] && r[ol] == want[ol] && r[pm] == want[pm];
  }

  /** _build_relationship_graph of the scenario's configuration yields the chain. */
  lemma ChainGraph(c: string, oh: string, ol: string, pm: string, k1: string, k2: string, k3: string)
    requires ChainNames(c, oh, ol, pm)
    ensures Links(Declared(ChainDeclarations(c, oh, ol, pm, k1, k2, k3))) == ChainMap(c, oh, ol, pm)
  {
    ChainDeclared(c, oh, ol, pm, k1, k2, k3);
    ChainTargets(c, oh, ol, pm, k1, k2, k3);
    ChainLinks(c, oh, ol, pm, oh + "." + k1, c + "." + k1, ol + "." + k2, oh + "." + k2, pm + "." + k3, ol + "." + k3);
  }

  /** Every path from c to pm in the chain passes through oh and ol. */
  lemma ChainPathsPass(c: string, oh: string, ol: string, pm: string, p: seq<string>)
    requires ChainNames(c, oh, ol, pm) && IsPath(ChainMap(c, oh, ol, pm), p, c, pm)
    ensures oh in p && ol in p
  {
    var adj := ChainMap(c, oh, ol, pm);
    assert |p| >= 2;
    assert p[1] in Nbrs(adj, c);
    assert p[1] == oh;
    assert |p| >= 3;
    assert p[2] in Nbrs(adj, oh) && p[2] != p[0];
  }

  lemma {:induction false} PathStaysAt(adj: Adjacency, p: seq<string>, tables: set<string>, k: nat)
    requires |p| >= 1 && p[0] in tables && Linked(adj, p)
    requires forall x :: x in tables ==> Nbrs(adj, x) <= tables
    requires k < |p|
    ensures p[k] in tables
    decreases k
  {
    if k > 0 {
      PathStaysAt(adj, p, tables, k - 1);
      assert p[(k - 1) + 1] in Nbrs(adj, p[k - 1]);
    }
  }

  /** A path that starts inside a set of tables closed under neighbours stays inside it. */
  lemma PathStays(adj: Adjacency, p: seq<string>, tables: set<string>)
    requires |p| >= 1 && p[0] in tables && Linked(adj, p)
    requires forall x :: x in tables ==> Nbrs(adj, x) <= tables
    ensures forall x :: x in p ==> x in tables
  {
    forall k | 0 <= k < |p| ensures p[k] in tables {
      PathStaysAt(adj, p, tables, k);
    }
  }

  /** The facts about the completed lists that pin them down. */
  lemma ChainResult(c: string, oh: string, ol: string, pm: string, completed: seq<string>, bridges: seq<string>)
    requires ChainNames(c, oh, ol, pm)
    requires StrLt(c, oh) && StrLt(oh, ol) && StrLt(ol, pm)
    requires StrictlyIncreasing(completed) && StrictlyIncreasing(bridges)
    requires forall x :: x in completed <==> x in [c, pm] || x in bridges
    requires forall x :: x in bridges ==> x !in [c, pm]
    requires forall x :: x in completed ==> x in {c, oh, ol, pm}
    requires oh in completed && ol in completed
    ensures completed == [c, oh, ol, pm] && bridges == [oh, ol]
  {
    StrLtTransitive(c, oh, ol);
    StrLtTransitive(oh, ol, pm);
    StrLtTransitive(c, ol, pm);
    assert StrictlyIncreasing([c, oh, ol, pm]);
    assert StrictlyIncreasing([oh, ol]);
    StrictlyIncreasingUnique(completed, [c, oh, ol, pm]);
    StrictlyIncreasingUnique(bridges, [oh, ol]);
  }

  /** Joining c and pm within a set of tables puts oh and ol in it. */
  lemma ChainJoined(c: string, oh: string, ol: string, pm: string, tables: set<string>)
    requires ChainNames(c, oh, ol, pm) && Joined(ChainMap(c, oh, ol, pm), c, pm, tables)
    ensures oh in tables && ol in tables
  {
    var adj := ChainMap(c, oh, ol, pm);
    var chain := [c, oh, ol, pm];
    assert IsPath(adj, chain, c, pm);
    var p :| IsPath(adj, p, c, pm) && |p| <= |chain| && SetOf(p) <= tables;
    ChainPathsPass(c, oh, ol, pm, p);
    assert oh in SetOf(p) && ol in SetOf(p);
  }

  /** A bridge of the chain is one of its four tables. */
  lemma ChainBridge(c: string, oh: string, ol: string, pm: string, b: string, i: int, j: int, q: seq<string>)
    requires ChainNames(c, oh, ol, pm) && BridgeFor(ChainMap(c, oh, ol, pm), [c, pm], b, i, j, q)
    ensures b in {c, oh, ol, pm}
  {
    var adj := ChainMap(c, oh, ol, pm);
    assert q[0] == c;
    PathStays(adj, q, {c, oh, ol, pm});
    assert b in q;
  }

  /**
   * Completing [c, pm] over the chain c - oh - ol - pm adds exactly the
   * bridges oh and ol, and the completed list is the four tables in order.
   */
  method ChainCompletion(c: string, oh: string, ol: string, pm: string, k1: string, k2: string, k3: string)
    returns (completed: seq<string>, bridges: seq<string>)
    requires ChainNames(c, oh, ol, pm)
    requires StrLt(c, oh) && StrLt(oh, ol) && StrLt(ol, pm)
    ensures completed == [c, oh, ol, pm]
    ensures bridges == [oh, ol]
  {
    var adj := ChainAdjacency(c, oh, ol, pm, k1, k2, k3);
    completed, bridges := CompleteTableRelationships(adj, true, [c, pm]);
    ChainOutcome(c, oh, ol, pm, completed, bridges);
  }

  /** What the completion promises, on the chain and [c, pm], pins down both lists. */
  lemma ChainOutcome(c: string, oh: string, ol: string, pm: string, completed: seq<string>, bridges: seq<string>)
    requires ChainNames(c, oh, ol, pm)
    requires StrLt(c, oh) && StrLt(oh, ol) && StrLt(ol, pm)
    requires StrictlyIncreasing(completed) && StrictlyIncreasing(bridges)
    requires forall x :: x in completed <==> x in [c, pm] || x in bridges
    requires forall x :: x in bridges ==> x !in [c, pm]
    requires forall b :: b in bridges ==> exists i, j, p :: BridgeFor(ChainMap(c, oh, ol, pm), [c, pm], b, i, j, p)
    requires forall i, j :: 0 <= i < j < |[c, pm]| ==> Joined(ChainMap(c, oh, ol, pm), [c, pm][i], [c, pm][j], SetOf(completed))
    ensures completed == [c, oh, ol, pm] && bridges == [oh, ol]
  {
    var adj := ChainMap(c, oh, ol, pm);
    assert [c, pm][0] == c && [c, pm][1] == pm;
    assert Joined(adj, c, pm, SetOf(completed));
    ChainJoined(c, oh, ol, pm, SetOf(completed));
    forall b | b in bridges ensures b in {c, oh, ol, pm} {
      var i, j, q :| BridgeFor(adj, [c, pm], b, i, j, q);
      ChainBridge(c, oh, ol, pm, b, i, j, q);
    }
    ChainResult(c, oh, ol, pm, completed, bridges);
  }

  /** The schema manager's graph for the scenario's configuration. */
  method ChainAdjacency(c: string, oh: string, ol: string, pm: string, k1: string, k2: string, k3: string)
    returns (adj: Adjacency)
    requires ChainNames(c, oh, ol, pm)
    ensures adj == ChainMap(c, oh, ol, pm)
  {
    var g := BuildRelationshipGraph(ChainDeclarations(c, oh, ol, pm, k1, k2, k3));
    ChainGraph(c, oh, ol, pm, k1, k2, k3);
    adj := g.adjacency;
  }

  lemma ScenarioNames()
    ensures ChainNames("cust", "ord_hdr", "ord_ln", "prd_mstr")
    ensures StrLt("cust", "ord_hdr") && StrLt("ord_hdr", "ord_ln") && StrLt("ord_ln", "prd_mstr")
  {
  }

  /** The scenario with its own names: [cust, prd_mstr] completes to all four tables. */
  method CustomerProductCompletion() returns (completed: seq<string>, bridges: seq<string>)
    ensures completed == ["cust", "ord_hdr", "ord_ln", "prd_mstr"]
    ensures bridges == ["ord_hdr", "ord_ln"]
  {
    ScenarioNames();
    completed, bridges := ChainCompletion("cust", "ord_hdr", "ord_ln", "prd_mstr", "ct_id", "ord_id", "prd_id");
  }
}
