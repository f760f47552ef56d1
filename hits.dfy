// Semantic-search hits and the per-table best score that both table
// selectors compute from them with a defaultdict(float).

module Hits {
  import opened Wrappers
  import opened Sequences
  import opened Dicts

  /**
   * One hit of the semantic search, reduced to the keys the selectors read:
   * its 'table', 'column' and 'score' entries (each may be absent).
   */
  datatype Hit = Hit(table: Option<string>, column: Option<string>, score: Option<real>)

  /** hit.get('score', 0) */
  function RawScore(h: Hit): real {
    h.score.GetOr(0.0)
  }

  /** `if hit.get('table')`: the table key is present and non-empty. */
  predicate HasTable(h: Hit) {
    h.table.Some? && h.table.value != ""
  }

  function Max(a: real, b: real): real {
    if a >= b then a else b
  }

  predicate NamesTable(h: Hit, t: string) {
    HasTable(h) && h.table.value == t
  }

  /**
   * The defaultdict(float) after visiting the hits in order: every hit with a
   * table reads the entry (creating it at 0.0) and raises it to its score.
   */
  function BestScores(hits: seq<Hit>): (d: Dict<string, real>)
    ensures Valid(d)
    decreases |hits|
  {
    if hits == [] then Empty()
    else
      var d := BestScores(hits[..|hits| - 1]);
      var h := hits[|hits| - 1];
      if HasTable(h) then
        var t := h.table.value;
        Put(d, t, Max(if t in d.entries then d.entries[t] else 0.0, RawScore(h)))
      else d
  }

  /**
   * The keys are exactly the tables named by some hit, and each table's score
   * is max(0, the scores of its hits).
   */
  lemma BestScoresMeaning(hits: seq<Hit>, t: string)
    ensures t in BestScores(hits).entries <==> exists i :: 0 <= i < |hits| && NamesTable(hits[i], t)
    ensures t in BestScores(hits).entries ==> BestScores(hits).entries[t] >= 0.0
    ensures t in BestScores(hits).entries ==>
      forall i :: 0 <= i < |hits| && NamesTable(hits[i], t) ==> RawScore(hits[i]) <= BestScores(hits).entries[t]
    ensures t in BestScores(hits).entries && BestScores(hits).entries[t] != 0.0 ==>
      exists i :: 0 <= i < |hits| && NamesTable(hits[i], t) && RawScore(hits[i]) == BestScores(hits).entries[t]
  {
    BestScoresKeys(hits, t);
    BestScoresBound(hits, t);
    BestScoresAttained(hits, t);
  }

  lemma {:induction false} BestScoresKeys(hits: seq<Hit>, t: string)
    ensures t in BestScores(hits).entries <==> exists i :: 0 <= i < |hits| && NamesTable(hits[i], t)
    decreases |hits|
  {
    if hits != [] {
      var n := |hits| - 1;
      BestScoresKeys(hits[..n], t);
      assert forall i :: 0 <= i < n ==> hits[..n][i] == hits[i];
      if NamesTable(hits[n], t) {
        assert t in BestScores(hits).entries;
      }
    }
  }

  lemma BestScoresBound(hits: seq<Hit>, t: string)
    ensures t in BestScores(hits).entries ==> BestScores(hits).entries[t] >= 0.0
    ensures t in BestScores(hits).entries ==>
      forall i :: 0 <= i < |hits| && NamesTable(hits[i], t) ==> RawScore(hits[i]) <= BestScores(hits).entries[t]
  {
    BestScoresNonneg(hits, t);
    forall i | 0 <= i < |hits| && NamesTable(hits[i], t)
      ensures t in BestScores(hits).entries && RawScore(hits[i]) <= BestScores(hits).entries[t]
    {
      BestScoresCovers(hits, t, i);
    }
  }

  lemma {:induction false} BestScoresNonneg(hits: seq<Hit>, t: string)
    ensures t in BestScores(hits).entries ==> BestScores(hits).entries[t] >= 0.0
    decreases |hits|
  {
    if hits != [] {
      var n := |hits| - 1;
      var d := BestScores(hits[..n]);
      BestScoresNonneg(hits[..n], t);
      if NamesTable(hits[n], t) {
        assert BestScores(hits).entries[t] >= (if t in d.entries then d.entries[t] else 0.0);
      }
    }
  }

  /** A hit naming t keeps t's score at least its own. */
  lemma {:induction false} BestScoresCovers(hits: seq<Hit>, t: string, i: nat)
    requires i < |hits| && NamesTable(hits[i], t)
    ensures t in BestScores(hits).entries && RawScore(hits[i]) <= BestScores(hits).entries[t]
    decreases |hits|
  {
    var n := |hits| - 1;
    var init := hits[..n];
    var d := BestScores(init);
    var r := BestScores(hits);
    if i < n {
      assert init[i] == hits[i];
      BestScoresCovers(init, t, i);
      BestScoresGrow(hits, t);
    } else {
      assert r.entries[t] >= RawScore(hits[n]);
    }
  }

  /** One more hit never removes a table nor lowers its score. */
  lemma BestScoresGrow(hits: seq<Hit>, t: string)
    requires hits != [] && t in BestScores(hits[..|hits| - 1]).entries
    ensures t in BestScores(hits).entries
    ensures BestScores(hits[..|hits| - 1]).entries[t] <= BestScores(hits).entries[t]
  {
  }

  lemma {:induction false} BestScoresAttained(hits: seq<Hit>, t: string)
    ensures t in BestScores(hits).entries && BestScores(hits).entries[t] != 0.0 ==>
      exists i :: 0 <= i < |hits| && NamesTable(hits[i], t) && RawScore(hits[i]) == BestScores(hits).entries[t]
    decreases |hits|
  {
    if hits != [] {
      var n := |hits| - 1;
      var init := hits[..n];
      var h := hits[n];
      var d := BestScores(init);
      var r := BestScores(hits);
      BestScoresAttained(init, t);
      if NamesTable(h, t) {
        var before := if t in d.entries then d.entries[t] else 0.0;
        assert r.entries[t] == Max(before, RawScore(h));
        if before > RawScore(h) {
          if before != 0.0 {
            var k :| 0 <= k < n && NamesTable(init[k], t) && RawScore(init[k]) == d.entries[t];
            assert hits[k] == init[k];
          }
        } else {
          assert NamesTable(hits[n], t) && RawScore(hits[n]) == r.entries[t];
        }
      } else {
        assert t in r.entries <==> t in d.entries;
        if t in d.entries && d.entries[t] != 0.0 {
          var k :| 0 <= k < n && NamesTable(init[k], t) && RawScore(init[k]) == d.entries[t];
          assert hits[k] == init[k] && r.entries[t] == d.entries[t];
        }
      }
    }
  }

  /** The order of the keys is the order in which tables are first named. */
  lemma {:induction false} BestScoresOrder(hits: seq<Hit>, i: nat, j: nat)
    requires i < j < |BestScores(hits).order|
    ensures exists p :: 0 <= p < |hits| && NamesTable(hits[p], BestScores(hits).order[i])
              && forall q :: 0 <= q <= p ==> !NamesTable(hits[q], BestScores(hits).order[j])
    decreases |hits|
  {
    var init := hits[..|hits| - 1];
    var d := BestScores(init);
    var h := hits[|hits| - 1];
    if j < |d.order| {
      BestScoresOrder(init, i, j);
      var p :| 0 <= p < |init| && NamesTable(init[p], d.order[i])
              && forall q :: 0 <= q <= p ==> !NamesTable(init[q], d.order[j]);
      assert forall q :: 0 <= q <= p ==> init[q] == hits[q];
      assert NamesTable(hits[p], BestScores(hits).order[i]);
    } else {
      // hits's last element named a new table, appended at position j
      var t := h.table.value;
      assert j == |d.order| && BestScores(hits).order == d.order + [t];
      assert t !in d.entries;
      BestScoresKeys(init, d.order[i]);
      BestScoresKeys(init, t);
      var p :| 0 <= p < |init| && NamesTable(init[p], d.order[i]);
      assert forall q :: 0 <= q <= p ==> init[q] == hits[q];
      assert NamesTable(hits[p], BestScores(hits).order[i]);
    }
  }

  /** Both loops of the selectors: column hits first, then table hits. */
  method ComputeBestScores(columns: seq<Hit>, tables: seq<Hit>) returns (d: Dict<string, real>)
    ensures d == BestScores(columns + tables)
  {
    ghost var hits := columns + tables;
    d := Empty();
    var i := 0;
    while i < |columns|
      invariant 0 <= i <= |columns|
      invariant d == BestScores(hits[..i])
    {
      d := Visit(d, columns[i], hits, i);
      i := i + 1;
    }
    var j := 0;
    while j < |tables|
      invariant 0 <= j <= |tables|
      invariant d == BestScores(hits[..|columns| + j])
    {
      d := Visit(d, tables[j], hits, |columns| + j);
      j := j + 1;
    }
    assert hits[..|columns| + j] == hits;
  }

  /**
   * One loop step: reading table_scores[table] creates it at 0.0, then a
   * higher score replaces it. Visiting the k-th hit extends the best scores
   * of the first k hits to the first k + 1.
   */
  method Visit(d0: Dict<string, real>, h: Hit, ghost hits: seq<Hit>, ghost k: nat) returns (d: Dict<string, real>)
    requires k < |hits| && hits[k] == h && d0 == BestScores(hits[..k])
    ensures d == BestScores(hits[..k + 1])
  {
    assert hits[..k + 1][..k] == hits[..k];
    d := d0;
    if HasTable(h) {
      var t := h.table.value;
      if t !in d.entries {
        d := Put(d, t, 0.0);
      }
      var score := RawScore(h);
      if score > d.entries[t] {
        d := Put(d, t, score);
      }
    }
  }

  function AtLeastIn(d: Dict<string, real>, minConfidence: real): string -> bool {
    t => t in d.entries && d.entries[t] >= minConfidence
  }

  /**
   * The entries whose score reaches the threshold, in their original order
   * (the dict comprehensions of both selectors).
   */
  function FilterByConfidence(d: Dict<string, real>, minConfidence: real): (r: Dict<string, real>)
    requires Valid(d)
    ensures Valid(r)
    ensures r.order == Filter(d.order, AtLeastIn(d, minConfidence))
    ensures forall t :: t in r.entries <==> t in d.entries && d.entries[t] >= minConfidence
    ensures forall t :: t in r.entries ==> r.entries[t] == d.entries[t]
  {
    var order := Filter(d.order, AtLeastIn(d, minConfidence));
    FilterMembers(d.order, AtLeastIn(d, minConfidence));
    FilterDistinct(d.order, AtLeastIn(d, minConfidence));
    Dict(order, map t | t in order :: d.entries[t])
  }
}
