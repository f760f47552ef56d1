// Breadth-first path search over the relationship graph and bridge-table
// completion (_find_relationship_paths and _complete_table_relationships in
// sql_generator/core/schema_manager.py).

module PathFinding {
  import opened Strings
  import opened Sequences
  import opened RelationshipGraphs

  /** Each table is a neighbour of the table before it. */
  predicate Linked(adj: Adjacency, p: seq<string>) {
    forall k :: 0 <= k < |p| - 1 ==> p[k + 1] in Nbrs(adj, p[k])
  }

  /** A path from a to b that never repeats a table. */
  predicate IsPath(adj: Adjacency, p: seq<string>, a: string, b: string) {
    |p| >= 1 && p[0] == a && p[|p| - 1] == b && Linked(adj, p) && Distinct(p)
  }

  /** No table of p is a neighbour of a table two or more places before it. */
  predicate Chordless(adj: Adjacency, p: seq<string>) {
    forall i, j :: 0 <= i && i + 1 < j < |p| ==> p[j] !in Nbrs(adj, p[i])
  }

  /** A path the search may enqueue: from t1, simple, and not reaching t2. */
  predicate Walk(adj: Adjacency, q: seq<string>, t1: string, t2: string) {
    |q| >= 1 && q[0] == t1 && Linked(adj, q) && Distinct(q) && t2 !in q
  }

  /** The paths the search is bound to report: chordless, within the depth bound. */
  predicate Target(adj: Adjacency, w: seq<string>, t1: string, t2: string, maxDepth: int) {
    IsPath(adj, w, t1, t2) && Chordless(adj, w) && |w| <= maxDepth + 1
  }

  /** A shortest path from a to b. */
  ghost predicate Shortest(adj: Adjacency, p: seq<string>, a: string, b: string) {
    IsPath(adj, p, a, b) && forall q :: IsPath(adj, q, a, b) ==> |p| <= |q|
  }

  /** Every table that occurs in the graph. */
  ghost function Nodes(adj: Adjacency): set<string> {
    adj.Keys + (set k, x | k in adj && x in adj[k] :: x)
  }

  ghost function PowerSet(n: set<string>): (p: set<set<string>>)
    ensures forall s :: s <= n ==> s in p
    decreases n
  {
    if n == {} then
      assert forall s :: s <= n ==> s in {{}} by {
        forall s | s <= n ensures s in {{}} { assert s == {}; }
      }
      {{}}
    else
      var x :| x in n;
      var r := PowerSet(n - {x});
      var p := r + set s | s in r :: s + {x};
      assert forall s :: s <= n ==> s in p by {
        forall s | s <= n ensures s in p {
          if x in s {
            assert s - {x} <= n - {x};
            assert (s - {x}) + {x} == s;
          } else {
            assert s <= n - {x};
          }
        }
      }
      p
  }

  /** The sort key of sorted(paths, key=len), as a descending key. */
  function LengthKey(p: seq<string>): real {
    -(|p| as real)
  }

  // ---------------------------------------------------------------------
  // Facts about paths

  lemma {:induction false} SamePrefix(adj: Adjacency, q: seq<string>, w: seq<string>, k: nat)
    requires 1 <= k <= |q| == |w| && q[0] == w[0]
    requires Linked(adj, q) && Distinct(q) && Distinct(w) && Chordless(adj, w)
    requires SetOf(q) == SetOf(w)
    ensures q[..k] == w[..k]
    decreases k
  {
    if k > 1 {
      SamePrefix(adj, q, w, k - 1);
      var x := q[k - 1];
      assert x in SetOf(w);
      var m :| 0 <= m < |w| && w[m] == x;
      assert forall l :: 0 <= l < k - 1 ==> w[l] == q[l] && q[l] != x;
      assert m >= k - 1;
      assert x in Nbrs(adj, w[k - 2]);
      assert forall l :: k - 1 < l < |w| ==> w[l] !in Nbrs(adj, w[k - 2]);
      assert m == k - 1;
      assert q[..k] == q[..k - 1] + [x] && w[..k] == w[..k - 1] + [w[k - 1]];
    }
  }

  /**
   * The signature loses nothing on the paths that matter: a simple path from
   * w's first table over the same tables as a chordless simple path w is w.
   */
  lemma SameTablesSamePath(adj: Adjacency, q: seq<string>, w: seq<string>)
    requires |q| >= 1 && |w| >= 1 && q[0] == w[0]
    requires Linked(adj, q) && Distinct(q) && Distinct(w) && Chordless(adj, w)
    requires SetOf(q) == SetOf(w)
    ensures q == w
  {
    DistinctSetCard(q);
    DistinctSetCard(w);
    SamePrefix(adj, q, w, |q|);
  }

  /** A prefix of a target path, as the search meets it. */
  lemma TargetPrefix(adj: Adjacency, w: seq<string>, t1: string, t2: string, maxDepth: int, i: nat)
    requires Target(adj, w, t1, t2, maxDepth) && 1 <= i < |w|
    ensures Walk(adj, w[..i], t1, t2) && Chordless(adj, w[..i])
    ensures |w[..i]| <= maxDepth
    ensures w[i] in Nbrs(adj, w[..i][i - 1])
    ensures w[i] !in w[..i]
    ensures w[i] == t2 <==> i + 1 == |w|
  {
    assert w[|w| - 1] == t2;
  }

  /** A path with a chord shortens to a chordless one with the same ends. */
  lemma {:induction false} Shortcut(adj: Adjacency, p: seq<string>, a: string, b: string)
    requires IsPath(adj, p, a, b)
    ensures exists c :: IsPath(adj, c, a, b) && Chordless(adj, c) && |c| <= |p|
    decreases |p|
  {
    if !Chordless(adj, p) {
      var i, j :| 0 <= i && i + 1 < j < |p| && p[j] in Nbrs(adj, p[i]);
      var c := p[..i + 1] + p[j..];
      assert forall k :: 0 <= k <= i ==> c[k] == p[k];
      assert forall k :: i < k < |c| ==> c[k] == p[k - i - 1 + j];
      assert Linked(adj, c) by {
        forall k | 0 <= k < |c| - 1 ensures c[k + 1] in Nbrs(adj, c[k]) {
          if k < i {
            assert c[k + 1] == p[k + 1];
          } else if k > i {
            assert c[k] == p[k - i - 1 + j] && c[k + 1] == p[(k - i - 1 + j) + 1];
          }
        }
      }
      assert Distinct(c) by {
        forall k, l | 0 <= k < l < |c| ensures c[k] != c[l] {
          var pk := if k <= i then k else k - i - 1 + j;
          var pl := if l <= i then l else l - i - 1 + j;
          assert c[k] == p[pk] && c[l] == p[pl] && pk < pl;
        }
      }
      Shortcut(adj, c, a, b);
    }
  }

  // ---------------------------------------------------------------------
  // The search invariant

  /**
   * The step of the search that follows w[..i+1]: the full path w is found,
   * or its next prefix is queued or has had its signature visited.
   */
  ghost predicate Next(w: seq<string>, i: nat, queue: seq<seq<string>>, visited: set<set<string>>, found: seq<seq<string>>)
    requires i < |w|
  {
    if i + 1 == |w| then w in found
    else w[..i + 1] in queue || SetOf(w[..i + 1]) in visited
  }

  /**
   * Progress on the target w: its first prefix has been queued, and every
   * visited prefix has led on to the next one, except the one being expanded
   * (`path`) while its neighbour w[i] is still among the `rest` to be tried.
   */
  ghost predicate Covered(w: seq<string>, queue: seq<seq<string>>, visited: set<set<string>>, found: seq<seq<string>>,
                          path: seq<string>, rest: set<string>)
    requires |w| >= 1
  {
    && Next(w, 0, queue, visited, found)
    && forall i :: 1 <= i < |w| && SetOf(w[..i]) in visited && !(w[..i] == path && w[i] in rest) ==>
         Next(w, i, queue, visited, found)
  }

  lemma NextAfterPop(w: seq<string>, i: nat, maxDepth: int, queue: seq<seq<string>>, visited: set<set<string>>,
                     visited': set<set<string>>, found: seq<seq<string>>)
    requires queue != [] && i < |w| <= maxDepth + 1
    requires Next(w, i, queue, visited, found)
    requires visited <= visited'
    requires |queue[0]| <= maxDepth ==> SetOf(queue[0]) in visited'
    ensures Next(w, i, queue[1..], visited', found)
  {
    assert queue == [queue[0]] + queue[1..];
    if i + 1 < |w| && w[..i + 1] !in queue[1..] && SetOf(w[..i + 1]) !in visited {
      assert w[..i + 1] == queue[0];
    }
  }

  /** Popping a path that is too long or whose signature was visited keeps w covered. */
  lemma PopSkip(adj: Adjacency, t1: string, t2: string, maxDepth: int, queue: seq<seq<string>>,
                visited: set<set<string>>, found: seq<seq<string>>, w: seq<string>)
    requires queue != [] && (|queue[0]| > maxDepth || SetOf(queue[0]) in visited)
    requires Target(adj, w, t1, t2, maxDepth) && Covered(w, queue, visited, found, [], {})
    ensures Covered(w, queue[1..], visited, found, [], {})
  {
    NextAfterPop(w, 0, maxDepth, queue, visited, visited, found);
    forall i | 1 <= i < |w| && SetOf(w[..i]) in visited
      ensures Next(w, i, queue[1..], visited, found)
    {
      NextAfterPop(w, i, maxDepth, queue, visited, visited, found);
    }
  }

  /** Visiting the popped path P keeps w covered while P's neighbours are tried. */
  lemma PopVisit(adj: Adjacency, t1: string, t2: string, maxDepth: int, queue: seq<seq<string>>,
                 visited: set<set<string>>, found: seq<seq<string>>, w: seq<string>)
    requires queue != [] && |queue[0]| <= maxDepth && Walk(adj, queue[0], t1, t2)
    requires Target(adj, w, t1, t2, maxDepth) && Covered(w, queue, visited, found, [], {})
    ensures var p := queue[0];
      Covered(w, queue[1..], visited + {SetOf(p)}, found, p, Nbrs(adj, p[|p| - 1]))
  {
    var p := queue[0];
    var visited' := visited + {SetOf(p)};
    var rest := Nbrs(adj, p[|p| - 1]);
    NextAfterPop(w, 0, maxDepth, queue, visited, visited', found);
    forall i | 1 <= i < |w| && SetOf(w[..i]) in visited' && !(w[..i] == p && w[i] in rest)
      ensures Next(w, i, queue[1..], visited', found)
    {
      if SetOf(w[..i]) in visited {
        NextAfterPop(w, i, maxDepth, queue, visited, visited', found);
      } else {
        VisitedIsExpanded(adj, t1, t2, maxDepth, p, w, i);
        assert false;
      }
    }
  }

  lemma VisitedIsExpanded(adj: Adjacency, t1: string, t2: string, maxDepth: int, p: seq<string>, w: seq<string>, i: nat)
    requires Walk(adj, p, t1, t2) && Target(adj, w, t1, t2, maxDepth) && 1 <= i < |w|
    requires SetOf(w[..i]) == SetOf(p)
    ensures w[..i] == p && w[i] in Nbrs(adj, p[|p| - 1])
  {
    TargetPrefix(adj, w, t1, t2, maxDepth, i);
    SameTablesSamePath(adj, p, w[..i]);
  }

  /** Trying neighbour n of P keeps w covered. */
  lemma Step(adj: Adjacency, t1: string, t2: string, maxDepth: int, queue: seq<seq<string>>,
             visited: set<set<string>>, found: seq<seq<string>>, p: seq<string>, rest: set<string>, n: string,
             queue': seq<seq<string>>, found': seq<seq<string>>, w: seq<string>)
    requires n in rest
    requires n == t2 ==> found' == found + [p + [n]] && queue' == queue
    requires n != t2 && n !in p ==> queue' == queue + [p + [n]] && found' == found
    requires n != t2 && n in p ==> queue' == queue && found' == found
    requires Target(adj, w, t1, t2, maxDepth) && Covered(w, queue, visited, found, p, rest)
    ensures Covered(w, queue', visited, found', p, rest - {n})
  {
    forall i | 0 <= i < |w| && Next(w, i, queue, visited, found) ensures Next(w, i, queue', visited, found') {
    }
    forall i | 1 <= i < |w| && SetOf(w[..i]) in visited && !(w[..i] == p && w[i] in rest - {n})
      ensures Next(w, i, queue', visited, found')
    {
      if w[..i] == p && w[i] == n {
        TargetPrefix(adj, w, t1, t2, maxDepth, i);
        if n == t2 {
          assert w == w[..i] + [w[i]];
        } else {
          assert w[..i + 1] == w[..i] + [w[i]];
        }
      }
    }
  }

  lemma {:induction false} FinalNext(w: seq<string>, i: nat, visited: set<set<string>>, found: seq<seq<string>>)
    requires i < |w| && Covered(w, [], visited, found, [], {})
    ensures Next(w, i, [], visited, found)
    decreases i
  {
    if i > 0 {
      FinalNext(w, i - 1, visited, found);
    }
  }

  /** Once the queue is empty every target has been found. */
  lemma Final(w: seq<string>, visited: set<set<string>>, found: seq<seq<string>>)
    requires |w| >= 1 && Covered(w, [], visited, found, [], {})
    ensures w in found
  {
    FinalNext(w, |w| - 1, visited, found);
  }

  /**
   * What a complete, length-sorted list of paths tells: the first path is a
   * shortest one, and there is one whenever a path within the bound exists.
   */
  lemma ShortestFirst(adj: Adjacency, t1: string, t2: string, maxDepth: int, paths: seq<seq<string>>)
    requires forall k :: 0 <= k < |paths| ==> IsPath(adj, paths[k], t1, t2) && |paths[k]| <= maxDepth + 1
    requires forall k, l :: 0 <= k < l < |paths| ==> |paths[k]| <= |paths[l]|
    requires forall w :: Target(adj, w, t1, t2, maxDepth) ==> w in paths
    ensures forall q :: IsPath(adj, q, t1, t2) && |q| <= maxDepth + 1 ==> paths != []
    ensures paths != [] ==> Shortest(adj, paths[0], t1, t2)
  {
    forall q | IsPath(adj, q, t1, t2) ensures |q| <= maxDepth + 1 ==> paths != [] && |paths[0]| <= |q| {
      if |q| <= maxDepth + 1 {
        Shortcut(adj, q, t1, t2);
        var c :| IsPath(adj, c, t1, t2) && Chordless(adj, c) && |c| <= |q|;
        assert Target(adj, c, t1, t2, maxDepth);
        var k :| 0 <= k < |paths| && paths[k] == c;
        assert |paths[0]| <= |paths[k]|;
      }
    }
  }

  /** The invariant of the search loop. */
  ghost predicate SearchInv(adj: Adjacency, t1: string, t2: string, maxDepth: int, queue: seq<seq<string>>,
                            visited: set<set<string>>, origin: map<set<string>, seq<string>>, found: seq<seq<string>>)
  {
    && (forall k :: 0 <= k < |queue| ==> Walk(adj, queue[k], t1, t2) && SetOf(queue[k]) <= Nodes(adj))
    && visited == origin.Keys
    && (forall s :: s in origin ==> Walk(adj, origin[s], t1, t2) && SetOf(origin[s]) == s && s <= Nodes(adj))
    && (forall k :: 0 <= k < |found| ==> IsPath(adj, found[k], t1, t2) && |found[k]| <= maxDepth + 1)
    && (forall w :: Target(adj, w, t1, t2, maxDepth) ==> Covered(w, queue, visited, found, [], {}))
  }

  lemma SearchInit(adj: Adjacency, t1: string, t2: string, maxDepth: int)
    requires t1 in adj && t1 != t2
    ensures SearchInv(adj, t1, t2, maxDepth, [[t1]], {}, map[], [])
  {
    forall w | Target(adj, w, t1, t2, maxDepth) ensures Covered(w, [[t1]], {}, [], [], {}) {
      assert w[..1] == [t1];
    }
  }

  /** The loop ends with every target among the paths found. */
  lemma SearchDone(adj: Adjacency, t1: string, t2: string, maxDepth: int,
                   visited: set<set<string>>, origin: map<set<string>, seq<string>>, found: seq<seq<string>>)
    requires SearchInv(adj, t1, t2, maxDepth, [], visited, origin, found)
    ensures forall w :: Target(adj, w, t1, t2, maxDepth) ==> w in found
  {
    forall w | Target(adj, w, t1, t2, maxDepth) ensures w in found {
      Final(w, visited, found);
    }
  }

  /** What sorted(paths, key=len) keeps of the paths found. */
  lemma SortedPaths(adj: Adjacency, t1: string, t2: string, maxDepth: int, found: seq<seq<string>>, paths: seq<seq<string>>)
    requires forall k :: 0 <= k < |found| ==> IsPath(adj, found[k], t1, t2) && |found[k]| <= maxDepth + 1
    requires forall w :: Target(adj, w, t1, t2, maxDepth) ==> w in found
    requires paths == SortDesc(found, LengthKey)
    ensures && (forall k :: 0 <= k < |paths| ==> IsPath(adj, paths[k], t1, t2) && |paths[k]| <= maxDepth + 1)
      && (forall k, l :: 0 <= k < l < |paths| ==> |paths[k]| <= |paths[l]|)
      && (forall w :: Target(adj, w, t1, t2, maxDepth) ==> w in paths)
  {
    assert forall x :: x in found <==> x in paths by {
      forall x ensures x in found <==> x in paths {
        assert x in found <==> x in multiset(found);
        assert x in paths <==> x in multiset(paths);
      }
    }
    forall k | 0 <= k < |paths| ensures IsPath(adj, paths[k], t1, t2) && |paths[k]| <= maxDepth + 1 {
      assert paths[k] in found;
    }
    forall k, l | 0 <= k < l < |paths| ensures |paths[k]| <= |paths[l]| {
      assert LengthKey(paths[k]) >= LengthKey(paths[l]);
    }
  }

  /** The only simple path from a table to itself is the table alone. */
  lemma SelfPath(adj: Adjacency, t: string, w: seq<string>)
    requires IsPath(adj, w, t, t)
    ensures w == [t]
  {
    assert w[0] == w[|w| - 1];
  }

  /**
   * _find_relationship_paths: breadth-first search from t1 that skips paths
   * longer than maxDepth and paths whose set of tables was expanded before,
   * records every path that steps onto t2 and extends the others with each
   * neighbour not yet on them; the paths found, shortest first.
   */
  method FindRelationshipPaths(adj: Adjacency, t1: string, t2: string, maxDepth: int) returns (paths: seq<seq<string>>)
    ensures t1 !in adj || t2 !in adj ==> paths == []
    ensures t1 in adj && t2 in adj && t1 == t2 ==> paths == [[t1]]
    ensures forall k :: 0 <= k < |paths| ==> IsPath(adj, paths[k], t1, t2)
    ensures t1 != t2 ==> forall k :: 0 <= k < |paths| ==> |paths[k]| <= maxDepth + 1
    ensures forall k, l :: 0 <= k < l < |paths| ==> |paths[k]| <= |paths[l]|
    ensures t1 in adj && t2 in adj ==> forall w :: Target(adj, w, t1, t2, maxDepth) ==> w in paths
    ensures t1 in adj && t2 in adj ==> forall q :: IsPath(adj, q, t1, t2) && |q| <= maxDepth + 1 ==> paths != []
    ensures paths != [] ==> Shortest(adj, paths[0], t1, t2)
  {
    if t1 !in adj || t2 !in adj {
      return [];
    }
    if t1 == t2 {
      paths := [[t1]];
      forall w | IsPath(adj, w, t1, t2) ensures w == [t1] {
        SelfPath(adj, t1, w);
      }
      return;
    }
    var queue: seq<seq<string>> := [[t1]];
    var visited: set<set<string>> := {};
    ghost var origin: map<set<string>, seq<string>> := map[];
    var found: seq<seq<string>> := [];
    SearchInit(adj, t1, t2, maxDepth);
    while queue != []
      invariant SearchInv(adj, t1, t2, maxDepth, queue, visited, origin, found)
      decreases PowerSet(Nodes(adj)) - visited, |queue|
    {
      var path := queue[0];
      if |path| > maxDepth || SetOf(path) in visited {
        forall w | Target(adj, w, t1, t2, maxDepth) ensures Covered(w, queue[1..], visited, found, [], {}) {
          PopSkip(adj, t1, t2, maxDepth, queue, visited, found, w);
        }
        queue := queue[1..];
      } else {
        forall w | Target(adj, w, t1, t2, maxDepth)
          ensures Covered(w, queue[1..], visited + {SetOf(path)}, found, path, Nbrs(adj, path[|path| - 1]))
        {
          PopVisit(adj, t1, t2, maxDepth, queue, visited, found, w);
        }
        ghost var before := PowerSet(Nodes(adj)) - visited;
        queue := queue[1..];
        visited := visited + {SetOf(path)};
        origin := origin[SetOf(path) := path];
        queue, found := Expand(adj, t1, t2, maxDepth, queue, visited, found, path);
        assert PowerSet(Nodes(adj)) - visited < before;
      }
    }
    SearchDone(adj, t1, t2, maxDepth, visited, origin, found);
    paths := SortDesc(found, LengthKey);
    SortedPaths(adj, t1, t2, maxDepth, found, paths);
    ShortestFirst(adj, t1, t2, maxDepth, paths);
  }

  /** The inner loop of the search: tries every neighbour of the last table of `path`. */
  method Expand(adj: Adjacency, t1: string, t2: string, maxDepth: int, queue0: seq<seq<string>>,
                ghost visited: set<set<string>>, found0: seq<seq<string>>, path: seq<string>)
    returns (queue: seq<seq<string>>, found: seq<seq<string>>)
    requires Walk(adj, path, t1, t2) && |path| <= maxDepth && SetOf(path) <= Nodes(adj)
    requires forall k :: 0 <= k < |queue0| ==> Walk(adj, queue0[k], t1, t2) && SetOf(queue0[k]) <= Nodes(adj)
    requires forall k :: 0 <= k < |found0| ==> IsPath(adj, found0[k], t1, t2) && |found0[k]| <= maxDepth + 1
    requires forall w :: Target(adj, w, t1, t2, maxDepth) ==>
      Covered(w, queue0, visited, found0, path, Nbrs(adj, path[|path| - 1]))
    ensures forall k :: 0 <= k < |queue| ==> Walk(adj, queue[k], t1, t2) && SetOf(queue[k]) <= Nodes(adj)
    ensures forall k :: 0 <= k < |found| ==> IsPath(adj, found[k], t1, t2) && |found[k]| <= maxDepth + 1
    ensures forall w :: Target(adj, w, t1, t2, maxDepth) ==> Covered(w, queue, visited, found, [], {})
  {
    queue, found := queue0, found0;
    var current := path[|path| - 1];
    var rest := Nbrs(adj, current);
    while rest != {}
      invariant rest <= Nbrs(adj, current)
      invariant forall k :: 0 <= k < |queue| ==> Walk(adj, queue[k], t1, t2) && SetOf(queue[k]) <= Nodes(adj)
      invariant forall k :: 0 <= k < |found| ==> IsPath(adj, found[k], t1, t2) && |found[k]| <= maxDepth + 1
      invariant forall w :: Target(adj, w, t1, t2, maxDepth) ==> Covered(w, queue, visited, found, path, rest)
      decreases rest
    {
      var neighbor :| neighbor in rest;
      assert current in adj && neighbor in adj[current];
      var queue', found' := queue, found;
      if neighbor == t2 {
        found' := found + [path + [neighbor]];
      } else if neighbor !in path {
        queue' := queue + [path + [neighbor]];
      }
      forall w | Target(adj, w, t1, t2, maxDepth) ensures Covered(w, queue', visited, found', path, rest - {neighbor}) {
        Step(adj, t1, t2, maxDepth, queue, visited, found, path, rest, neighbor, queue', found', w);
      }
      queue, found := queue', found';
      rest := rest - {neighbor};
    }
  }

  // ---------------------------------------------------------------------
  // Bridge-table completion

  /** The max_depth _complete_table_relationships searches with. */
  const CompletionDepth := 3

  /** Python's path[1:-1]: the tables strictly between the two ends. */
  function Interior(p: seq<string>): seq<string> {
    if |p| >= 2 then p[1..|p| - 1] else []
  }

  lemma InteriorCovers(p: seq<string>)
    requires |p| >= 1
    ensures SetOf(p) == {p[0], p[|p| - 1]} + SetOf(Interior(p))
  {
    if |p| >= 2 {
      assert p == [p[0]] + Interior(p) + [p[|p| - 1]];
    }
  }

  /**
   * a and b are joined within `tables`: whenever the graph has a path of at
   * most CompletionDepth + 1 tables between them, it has one no longer whose
   * tables all lie in `tables`.
   */
  ghost predicate Joined(adj: Adjacency, a: string, b: string, tables: set<string>) {
    forall q :: IsPath(adj, q, a, b) && |q| <= CompletionDepth + 1 && a in adj && b in adj ==>
      exists p :: IsPath(adj, p, a, b) && |p| <= |q| && SetOf(p) <= tables
  }

  lemma JoinedGrows(adj: Adjacency, a: string, b: string, tables: set<string>, more: set<string>)
    requires Joined(adj, a, b, tables) && tables <= more
    ensures Joined(adj, a, b, more)
  {
  }

  /** Why b is a bridge: it lies strictly inside a shortest path between two selected tables. */
  ghost predicate BridgeFor(adj: Adjacency, selected: seq<string>, b: string, i: int, j: int, p: seq<string>) {
    0 <= i < j < |selected| && Shortest(adj, p, selected[i], selected[j])
    && |p| <= CompletionDepth + 1 && b in Interior(p)
  }

  /** The loop over one shortest path's interior: each table not yet present becomes a bridge. */
  method AddInterior(interior: seq<string>, completed0: set<string>, bridges0: set<string>)
    returns (completed: set<string>, bridges: set<string>)
    ensures completed == completed0 + SetOf(interior)
    ensures bridges == bridges0 + (SetOf(interior) - completed0)
  {
    completed, bridges := completed0, bridges0;
    var k := 0;
    while k < |interior|
      invariant 0 <= k <= |interior|
      invariant completed == completed0 + SetOf(interior[..k])
      invariant bridges == bridges0 + (SetOf(interior[..k]) - completed0)
    {
      var table := interior[k];
      if table !in completed {
        bridges := bridges + {table};
        completed := completed + {table};
      }
      assert SetOf(interior[..k + 1]) == SetOf(interior[..k]) + {table} by {
        assert interior[..k + 1] == interior[..k] + [table];
      }
      k := k + 1;
    }
    assert interior[..k] == interior;
  }

  /** The invariant of the pair loops of _complete_table_relationships. */
  ghost predicate CompletionInv(adj: Adjacency, selected: seq<string>, completed: set<string>, bridges: set<string>,
                                why: map<string, (int, int, seq<string>)>)
  {
    && completed == SetOf(selected) + bridges
    && bridges !! SetOf(selected)
    && why.Keys == bridges
    && (forall b :: b in why ==> BridgeFor(adj, selected, b, why[b].0, why[b].1, why[b].2))
  }

  /** One pair (i, j): bridges the shortest path FindRelationshipPaths reports. */
  method CompletePair(adj: Adjacency, selected: seq<string>, i: nat, j: nat, completed0: set<string>,
                      bridges0: set<string>, ghost why0: map<string, (int, int, seq<string>)>)
    returns (completed: set<string>, bridges: set<string>, ghost why: map<string, (int, int, seq<string>)>)
    requires i < j < |selected|
    requires CompletionInv(adj, selected, completed0, bridges0, why0)
    ensures CompletionInv(adj, selected, completed, bridges, why)
    ensures completed0 <= completed && bridges0 <= bridges
    ensures Joined(adj, selected[i], selected[j], completed)
  {
    var paths := FindRelationshipPaths(adj, selected[i], selected[j], CompletionDepth);
    completed, bridges, why := completed0, bridges0, why0;
    if paths != [] {
      var shortest := paths[0];
      completed, bridges := AddInterior(Interior(shortest), completed0, bridges0);
      InteriorCovers(shortest);
      assert selected[i] in SetOf(selected) && selected[j] in SetOf(selected);
      assert SetOf(shortest) <= completed;
      forall b | b in bridges && b !in why0 ensures BridgeFor(adj, selected, b, i, j, shortest) {
        assert b in Interior(shortest);
        assert |shortest| >= 2;
        assert shortest[0] != shortest[|shortest| - 1];
      }
      why := map b | b in bridges :: if b in why0 then why0[b] else (i, j, shortest);
    }
  }

  /** Every pair (k, l) with k < l, before (i, j) in loop order, is joined within `tables`. */
  ghost predicate PairsJoined(adj: Adjacency, selected: seq<string>, tables: set<string>, i: int, j: int) {
    forall k, l :: 0 <= k < l < |selected| && (k < i || (k == i && l < j)) ==> Joined(adj, selected[k], selected[l], tables)
  }

  lemma PairsJoinedGrows(adj: Adjacency, selected: seq<string>, tables: set<string>, more: set<string>, i: int, j: int)
    requires PairsJoined(adj, selected, tables, i, j) && tables <= more
    ensures PairsJoined(adj, selected, more, i, j)
  {
    forall k, l | 0 <= k < l < |selected| && (k < i || (k == i && l < j))
      ensures Joined(adj, selected[k], selected[l], more)
    {
      JoinedGrows(adj, selected[k], selected[l], tables, more);
    }
  }

  lemma PairsJoinedStep(adj: Adjacency, selected: seq<string>, tables: set<string>, i: int, j: int)
    requires 0 <= i < j < |selected|
    requires PairsJoined(adj, selected, tables, i, j) && Joined(adj, selected[i], selected[j], tables)
    ensures PairsJoined(adj, selected, tables, i, j + 1)
  {
  }

  lemma PairsJoinedRow(adj: Adjacency, selected: seq<string>, tables: set<string>, i: int)
    requires 0 <= i && PairsJoined(adj, selected, tables, i, |selected|)
    ensures PairsJoined(adj, selected, tables, i + 1, i + 2)
  {
  }

  /** The inner loop over table2 in selected_tables[i+1:]. */
  method CompleteFrom(adj: Adjacency, selected: seq<string>, i: nat, completed0: set<string>,
                      bridges0: set<string>, ghost why0: map<string, (int, int, seq<string>)>)
    returns (completed: set<string>, bridges: set<string>, ghost why: map<string, (int, int, seq<string>)>)
    requires i < |selected|
    requires CompletionInv(adj, selected, completed0, bridges0, why0)
    requires PairsJoined(adj, selected, completed0, i, i + 1)
    ensures CompletionInv(adj, selected, completed, bridges, why)
    ensures completed0 <= completed
    ensures PairsJoined(adj, selected, completed, i + 1, i + 2)
  {
    completed, bridges, why := completed0, bridges0, why0;
    var j := i + 1;
    while j < |selected|
      invariant i + 1 <= j <= |selected|
      invariant completed0 <= completed
      invariant CompletionInv(adj, selected, completed, bridges, why)
      invariant PairsJoined(adj, selected, completed, i, j)
    {
      ghost var before := completed;
      completed, bridges, why := CompletePair(adj, selected, i, j, completed, bridges, why);
      PairsJoinedGrows(adj, selected, before, completed, i, j);
      PairsJoinedStep(adj, selected, completed, i, j);
      j := j + 1;
    }
    PairsJoinedRow(adj, selected, completed, i);
  }

  /**
   * _complete_table_relationships: with completion enabled and at least two
   * tables, searches every pair of selected tables (depth 3) and adds the
   * interior of each pair's shortest path; returns the sorted union and the
   * sorted bridge tables.
   */
  method CompleteTableRelationships(adj: Adjacency, enabled: bool, selected: seq<string>)
    returns (completed: seq<string>, bridges: seq<string>)
    ensures !enabled || |selected| <= 1 ==> completed == selected && bridges == []
    ensures enabled && |selected| > 1 ==>
      && StrictlyIncreasing(completed) && StrictlyIncreasing(bridges)
      && (forall x :: x in completed <==> x in selected || x in bridges)
      && (forall x :: x in bridges ==> x !in selected)
      && (forall b :: b in bridges ==> exists i, j, p :: BridgeFor(adj, selected, b, i, j, p))
      && (forall i, j :: 0 <= i < j < |selected| ==> Joined(adj, selected[i], selected[j], SetOf(completed)))
  {
    if !enabled || |selected| <= 1 {
      return selected, [];
    }
    var bridgeSet: set<string> := {};
    var completedSet := SetOf(selected);
    ghost var why: map<string, (int, int, seq<string>)> := map[];
    var i := 0;
    while i < |selected|
      invariant 0 <= i <= |selected|
      invariant CompletionInv(adj, selected, completedSet, bridgeSet, why)
      invariant PairsJoined(adj, selected, completedSet, i, i + 1)
    {
      completedSet, bridgeSet, why := CompleteFrom(adj, selected, i, completedSet, bridgeSet, why);
      i := i + 1;
    }
    completed := SortedStrings(completedSet);
    bridges := SortedStrings(bridgeSet);
    CompletionResult(adj, selected, completedSet, bridgeSet, why, completed, bridges);
  }

  lemma CompletionResult(adj: Adjacency, selected: seq<string>, completedSet: set<string>, bridgeSet: set<string>,
                         why: map<string, (int, int, seq<string>)>, completed: seq<string>, bridges: seq<string>)
    requires CompletionInv(adj, selected, completedSet, bridgeSet, why)
    requires PairsJoined(adj, selected, completedSet, |selected|, |selected| + 1)
    requires forall y :: y in completed <==> y in completedSet
    requires forall y :: y in bridges <==> y in bridgeSet
    ensures forall x :: x in completed <==> x in selected || x in bridges
    ensures forall x :: x in bridges ==> x !in selected
    ensures forall b :: b in bridges ==> exists i, j, p :: BridgeFor(adj, selected, b, i, j, p)
    ensures forall i, j :: 0 <= i < j < |selected| ==> Joined(adj, selected[i], selected[j], SetOf(completed))
  {
    assert SetOf(completed) == completedSet;
    forall b | b in bridges ensures exists i, j, p :: BridgeFor(adj, selected, b, i, j, p) {
      assert BridgeFor(adj, selected, b, why[b].0, why[b].1, why[b].2);
    }
    forall x ensures x in completed <==> x in selected || x in bridges {
      assert x in selected <==> x in SetOf(selected);
    }
  }
}
