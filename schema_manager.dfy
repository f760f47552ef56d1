// The table and column selection stages of SchemaManager
// (sql_generator/core/schema_manager.py): confidence bands, per-table scores
// from the semantic hits, the confidence threshold, context boosts and
// exclusions, the per-table column budget, relationship inference and the
// composed select_tables / select_columns.

module SchemaSelection {
  import opened Wrappers
  import opened Strings
  import opened Sequences
  import opened Dicts
  import opened Hits
  import ScoreRanking
  import opened QueryAnalysis
  import opened RelationshipGraphs
  import opened PathFinding

  /** The settings read from the configuration dictionary in the constructor. */
  datatype ManagerConfig = ManagerConfig(
    minConfidence: real,
    maxTables: int,
    maxColumnsPerTable: int,
    enableContextFiltering: bool,
    enableRelationshipCompletion: bool)

  /** The values used for keys absent from the configuration dictionary. */
  const DefaultConfig := ManagerConfig(0.5, 4, 3, true, true)

  // ---------------------------------------------------------------------
  // Confidence bands (_calculate_column_confidence)
  // ---------------------------------------------------------------------

  /**
   * A raw similarity score mapped onto 0..1 by fixed bands
   * (0.2 -> 0.1, 0.4 -> 0.4, 0.6 -> 0.7, 0.8 -> 0.9, 1.0 -> 1.0), linear inside
   * each band. Scores outside 0..1 are not clamped.
   */
  function ColumnConfidence(raw: real): (r: real)
    ensures 0.0 <= raw <= 1.0 ==> 0.0 <= r <= 1.0
    ensures raw < 0.0 ==> r < 0.0
    ensures raw > 1.0 ==> r > 1.0
  {
    if raw >= 0.8 then 0.9 + ((raw - 0.8) / 0.2) * 0.1
    else if raw >= 0.6 then 0.7 + ((raw - 0.6) / 0.2) * 0.2
    else if raw >= 0.4 then 0.4 + ((raw - 0.4) / 0.2) * 0.3
    else if raw >= 0.2 then 0.1 + ((raw - 0.2) / 0.2) * 0.3
    else (raw / 0.2) * 0.1
  }

  /** The confidence of a hit, its 'score' defaulting to 0 (tables use the same rule). */
  function HitConfidence(h: Hit): real {
    ColumnConfidence(RawScore(h))
  }

  /** The band end-points. */
  lemma ColumnConfidenceAnchors()
    ensures ColumnConfidence(0.0) == 0.0 && ColumnConfidence(0.2) == 0.1 && ColumnConfidence(0.4) == 0.4
    ensures ColumnConfidence(0.6) == 0.7 && ColumnConfidence(0.8) == 0.9 && ColumnConfidence(1.0) == 1.0
  {
  }

  /**
   * The map is non-decreasing on every input and never climbs faster than 1.5
   * per unit of score, so the bands meet without jumps.
   */
  lemma ColumnConfidenceMonotone(a: real, b: real)
    requires a <= b
    ensures ColumnConfidence(a) <= ColumnConfidence(b)
    ensures ColumnConfidence(b) - ColumnConfidence(a) <= 1.5 * (b - a)
  {
  }

  /** On 0..1 the bands are those of normalize_score, a hundred times smaller. */
  lemma ColumnConfidenceIsNormalized(s: real)
    requires 0.0 <= s <= 1.0
    ensures 100.0 * ColumnConfidence(s) == ScoreRanking.NormalizeScore(s)
  {
  }

  /** Out of range the map keeps extrapolating: -1.0 gives -0.5 and 2.0 gives 1.5. */
  lemma ColumnConfidenceUnclamped()
    ensures ColumnConfidence(-1.0) == -0.5 && ColumnConfidence(2.0) == 1.5
  {
  }

  // ---------------------------------------------------------------------
  // _extract_tables_from_semantic_results
  // ---------------------------------------------------------------------

  /**
   * The first loop: a column hit naming a table creates its entry with the
   * hit's confidence, or raises an existing entry to it.
   */
  function ColumnPass(columns: seq<Hit>): (d: Dict<string, real>)
    ensures Valid(d)
    decreases |columns|
  {
    if columns == [] then Empty()
    else
      var d := ColumnPass(columns[..|columns| - 1]);
      var h := columns[|columns| - 1];
      if HasTable(h) then
        var t := h.table.value;
        Put(d, t, if t in d.entries then Max(d.entries[t], HitConfidence(h)) else HitConfidence(h))
      else d
  }

  /**
   * The second loop: a table hit creates its entry with its confidence, or
   * replaces an existing entry by the mean of the two.
   */
  function TablePass(d0: Dict<string, real>, tables: seq<Hit>): (d: Dict<string, real>)
    requires Valid(d0)
    ensures Valid(d)
    decreases |tables|
  {
    if tables == [] then d0
    else
      var d := TablePass(d0, tables[..|tables| - 1]);
      var h := tables[|tables| - 1];
      if HasTable(h) then
        var t := h.table.value;
        Put(d, t, if t in d.entries then (d.entries[t] + HitConfidence(h)) / 2.0 else HitConfidence(h))
      else d
  }

  function ExtractTables(columns: seq<Hit>, tables: seq<Hit>): (d: Dict<string, real>)
    ensures Valid(d)
  {
    TablePass(ColumnPass(columns), tables)
  }

  method ExtractTablesFromSemanticResults(columns: seq<Hit>, tables: seq<Hit>) returns (scores: Dict<string, real>)
    ensures scores == ExtractTables(columns, tables)
  {
    scores := Empty();
    var i := 0;
    while i < |columns|
      invariant 0 <= i <= |columns|
      invariant scores == ColumnPass(columns[..i])
    {
      scores := ColumnStep(scores, columns, i);
      i := i + 1;
    }
    assert columns[..i] == columns;
    var j := 0;
    while j < |tables|
      invariant 0 <= j <= |tables|
      invariant scores == TablePass(ColumnPass(columns), tables[..j])
    {
      scores := TableStep(scores, ColumnPass(columns), tables, j);
      j := j + 1;
    }
    assert tables[..j] == tables;
  }

  /** The body of the column loop on the i-th column hit: a new table, or a higher confidence. */
  method ColumnStep(d0: Dict<string, real>, columns: seq<Hit>, i: nat) returns (scores: Dict<string, real>)
    requires i < |columns| && d0 == ColumnPass(columns[..i])
    ensures scores == ColumnPass(columns[..i + 1])
  {
    assert columns[..i + 1][..i] == columns[..i];
    scores := d0;
    var h := columns[i];
    if HasTable(h) {
      var table := h.table.value;
      var score := HitConfidence(h);
      if table !in scores.entries {
        scores := Put(scores, table, score);
      } else {
        scores := Put(scores, table, Max(scores.entries[table], score));
      }
    }
  }

  /** The body of the table loop on the j-th table hit: a new table, or the mean of the two scores. */
  method TableStep(d0: Dict<string, real>, ghost start: Dict<string, real>, tables: seq<Hit>, j: nat)
    returns (scores: Dict<string, real>)
    requires Valid(start) && j < |tables| && d0 == TablePass(start, tables[..j])
    ensures scores == TablePass(start, tables[..j + 1])
  {
    assert tables[..j + 1][..j] == tables[..j];
    scores := d0;
    var h := tables[j];
    if HasTable(h) {
      var table := h.table.value;
      var score := HitConfidence(h);
      if table !in scores.entries {
        scores := Put(scores, table, score);
      } else {
        scores := Put(scores, table, (scores.entries[table] + score) / 2.0);
      }
    }
  }

  /**
   * After the column loop the keys are the tables named by column hits and each
   * score is the highest confidence among that table's hits.
   */
  lemma ColumnPassMeaning(columns: seq<Hit>, t: string)
    ensures t in ColumnPass(columns).entries <==> exists i :: 0 <= i < |columns| && NamesTable(columns[i], t)
    ensures t in ColumnPass(columns).entries ==>
      forall i :: 0 <= i < |columns| && NamesTable(columns[i], t) ==> HitConfidence(columns[i]) <= ColumnPass(columns).entries[t]
    ensures t in ColumnPass(columns).entries ==>
      exists i :: 0 <= i < |columns| && NamesTable(columns[i], t) && HitConfidence(columns[i]) == ColumnPass(columns).entries[t]
  {
    ColumnPassKeys(columns, t);
    ColumnPassBound(columns, t);
    ColumnPassAttained(columns, t);
  }

  lemma {:induction false} ColumnPassKeys(columns: seq<Hit>, t: string)
    ensures t in ColumnPass(columns).entries <==> exists i :: 0 <= i < |columns| && NamesTable(columns[i], t)
    decreases |columns|
  {
    if columns != [] {
      var n := |columns| - 1;
      ColumnPassKeys(columns[..n], t);
      assert forall i :: 0 <= i < n ==> columns[..n][i] == columns[i];
      if NamesTable(columns[n], t) {
        assert t in ColumnPass(columns).entries;
      }
    }
  }

  lemma {:induction false} ColumnPassBound(columns: seq<Hit>, t: string)
    ensures t in ColumnPass(columns).entries ==>
      forall i :: 0 <= i < |columns| && NamesTable(columns[i], t) ==> HitConfidence(columns[i]) <= ColumnPass(columns).entries[t]
    decreases |columns|
  {
    if columns != [] {
      var n := |columns| - 1;
      var init := columns[..n];
      var d := ColumnPass(init);
      var r := ColumnPass(columns);
      ColumnPassBound(init, t);
      ColumnPassKeys(init, t);
      assert forall i :: 0 <= i < n ==> init[i] == columns[i];
      if NamesTable(columns[n], t) {
        assert t in d.entries ==> r.entries[t] >= d.entries[t];
        assert r.entries[t] >= HitConfidence(columns[n]);
      } else {
        assert t in r.entries <==> t in d.entries;
        assert t in d.entries ==> r.entries[t] == d.entries[t];
      }
    }
  }

  lemma {:induction false} ColumnPassAttained(columns: seq<Hit>, t: string)
    ensures t in ColumnPass(columns).entries ==>
      exists i :: 0 <= i < |columns| && NamesTable(columns[i], t) && HitConfidence(columns[i]) == ColumnPass(columns).entries[t]
    decreases |columns|
  {
    if columns != [] {
      var n := |columns| - 1;
      var init := columns[..n];
      var h := columns[n];
      var d := ColumnPass(init);
      var r := ColumnPass(columns);
      ColumnPassAttained(init, t);
      if NamesTable(h, t) {
        assert r.entries[t] == if t in d.entries then Max(d.entries[t], HitConfidence(h)) else HitConfidence(h);
        if t in d.entries && d.entries[t] > HitConfidence(h) {
          var k :| 0 <= k < n && NamesTable(init[k], t) && HitConfidence(init[k]) == d.entries[t];
          assert columns[k] == init[k];
        } else {
          assert NamesTable(columns[n], t) && HitConfidence(columns[n]) == r.entries[t];
        }
      } else {
        assert t in r.entries <==> t in d.entries;
        if t in d.entries {
          var k :| 0 <= k < n && NamesTable(init[k], t) && HitConfidence(init[k]) == d.entries[t];
          assert columns[k] == init[k] && r.entries[t] == d.entries[t];
        }
      }
    }
  }

  /**
   * The table loop adds the tables named by table hits and leaves the score of
   * every table no table hit names as it was.
   */
  lemma {:induction false} TablePassMeaning(d: Dict<string, real>, tables: seq<Hit>, t: string)
    requires Valid(d)
    ensures t in TablePass(d, tables).entries <==> t in d.entries || exists i :: 0 <= i < |tables| && NamesTable(tables[i], t)
    ensures t in d.entries && (forall i :: 0 <= i < |tables| ==> !NamesTable(tables[i], t)) ==>
      TablePass(d, tables).entries[t] == d.entries[t]
    decreases |tables|
  {
    if tables != [] {
      var init := tables[..|tables| - 1];
      TablePassMeaning(d, init, t);
      assert forall i :: 0 <= i < |init| ==> init[i] == tables[i];
    }
  }

  /**
   * The tables found are exactly those named by some hit; a table no table
   * hit names scores the best confidence of its column hits.
   */
  lemma ExtractedScores(columns: seq<Hit>, tables: seq<Hit>, t: string)
    ensures t in ExtractTables(columns, tables).entries <==>
      (exists i :: 0 <= i < |columns| && NamesTable(columns[i], t)) || (exists i :: 0 <= i < |tables| && NamesTable(tables[i], t))
    ensures (forall i :: 0 <= i < |tables| ==> !NamesTable(tables[i], t)) && t in ExtractTables(columns, tables).entries ==>
      forall i :: 0 <= i < |columns| && NamesTable(columns[i], t) ==> HitConfidence(columns[i]) <= ExtractTables(columns, tables).entries[t]
    ensures (forall i :: 0 <= i < |tables| ==> !NamesTable(tables[i], t)) && t in ExtractTables(columns, tables).entries ==>
      exists i :: 0 <= i < |columns| && NamesTable(columns[i], t) && HitConfidence(columns[i]) == ExtractTables(columns, tables).entries[t]
  {
    ColumnPassMeaning(columns, t);
    TablePassMeaning(ColumnPass(columns), tables, t);
  }

  /**
   * One more table hit averages its confidence into an existing entry (or
   * creates the entry) and leaves every other table's score unchanged.
   */
  lemma TableHitAverages(columns: seq<Hit>, tables: seq<Hit>, h: Hit)
    requires HasTable(h)
    ensures var before := ExtractTables(columns, tables);
      var after := ExtractTables(columns, tables + [h]);
      var t := h.table.value;
      && after.entries[t] == (if t in before.entries then (before.entries[t] + HitConfidence(h)) / 2.0 else HitConfidence(h))
      && (forall u :: u != t ==> (u in after.entries <==> u in before.entries))
      && (forall u :: u != t && u in before.entries ==> after.entries[u] == before.entries[u])
  {
    assert (tables + [h])[..|tables|] == tables;
  }

  /**
   * A weaker table hit lowers a table found through a strong column hit: the
   * scores are averaged, not maximised.
   */
  lemma AveragingLowers(t: string, strong: real, weak: real)
    requires t != "" && ColumnConfidence(weak) < ColumnConfidence(strong)
    ensures var column := Hit(Some(t), None, Some(strong));
      var table := Hit(Some(t), None, Some(weak));
      ExtractTables([column], [table]).entries[t] < ExtractTables([column], []).entries[t]
  {
    var column := Hit(Some(t), None, Some(strong));
    var table := Hit(Some(t), None, Some(weak));
    assert [column][..0] == [];
    assert [table][..0] == [];
    assert ColumnPass([column]).entries[t] == ColumnConfidence(strong);
  }

  /** Dict keys are in the order tables are first named, as for the best-score dictionary. */
  lemma {:induction false} ColumnPassOrder(columns: seq<Hit>)
    ensures ColumnPass(columns).order == BestScores(columns).order
    decreases |columns|
  {
    if columns != [] {
      ColumnPassOrder(columns[..|columns| - 1]);
    }
  }

  lemma {:induction false} TablePassOrder(columns: seq<Hit>, tables: seq<Hit>)
    ensures ExtractTables(columns, tables).order == BestScores(columns + tables).order
    decreases |tables|
  {
    if tables == [] {
      ColumnPassOrder(columns);
      assert columns + tables == columns;
    } else {
      var init := tables[..|tables| - 1];
      TablePassOrder(columns, init);
      assert (columns + tables)[..|columns + tables| - 1] == columns + init;
    }
  }

  /**
   * The tables appear in the order in which a hit, column hits first, first
   * names them.
   */
  lemma ExtractOrder(columns: seq<Hit>, tables: seq<Hit>, i: nat, j: nat)
    requires i < j < |ExtractTables(columns, tables).order|
    ensures var hits := columns + tables;
      var order := ExtractTables(columns, tables).order;
      exists p :: 0 <= p < |hits| && NamesTable(hits[p], order[i])
        && forall q :: 0 <= q <= p ==> !NamesTable(hits[q], order[j])
  {
    TablePassOrder(columns, tables);
    BestScoresOrder(columns + tables, i, j);
  }

  // ---------------------------------------------------------------------
  // _apply_context_filtering
  // ---------------------------------------------------------------------

  /**
   * `available_tables and ...`: a given, non-empty set of available tables
   * restricts the selection; None and the empty set do not.
   */
  predicate Restricts(available: Option<set<string>>) {
    available.Some? && available.value != {}
  }

  predicate Allowed(available: Option<set<string>>, t: string) {
    !Restricts(available) || t in available.value
  }

  /** A scored table survives the first loop: not excluded and available. */
  predicate Kept(ctx: QueryContext, available: Option<set<string>>, t: string) {
    t !in ctx.excludedTables && Allowed(available, t)
  }

  function KeptBy(ctx: QueryContext, available: Option<set<string>>): string -> bool {
    t => Kept(ctx, available, t)
  }

  /** A suggested table's score is raised by 0.1, capped at 1.0. */
  function Boosted(ctx: QueryContext, t: string, score: real): real {
    if t in ctx.suggestedTables then MinReal(score + 0.1, 1.0) else score
  }

  /**
   * The result of context filtering: the kept tables first, in their original
   * order and with suggested ones boosted, then every other suggested, available
   * table at exactly the minimum confidence (a table both suggested and excluded
   * comes back this way).
   */
  ghost predicate ContextFiltered(scores: Dict<string, real>, ctx: QueryContext, available: Option<set<string>>,
                                  minConfidence: real, filtered: Dict<string, real>)
    requires Valid(scores)
  {
    var kept := Filter(scores.order, KeptBy(ctx, available));
    && Valid(filtered)
    && |kept| <= |filtered.order| && filtered.order[..|kept|] == kept
    && (forall t :: t in filtered.entries <==>
          (t in scores.entries && Kept(ctx, available, t)) || (t in ctx.suggestedTables && Allowed(available, t)))
    && (forall t :: t in scores.entries && Kept(ctx, available, t) ==>
          filtered.entries[t] == Boosted(ctx, t, scores.entries[t]))
    && (forall t :: t in filtered.entries && !(t in scores.entries && Kept(ctx, available, t)) ==>
          filtered.entries[t] == minConfidence)
  }

  method ApplyContextFiltering(scores: Dict<string, real>, ctx: QueryContext, available: Option<set<string>>,
                               minConfidence: real) returns (filtered: Dict<string, real>)
    requires Valid(scores)
    ensures ContextFiltered(scores, ctx, available, minConfidence, filtered)
  {
    var kept := KeepScored(scores, ctx, available);
    filtered := AddSuggested(scores, ctx, available, minConfidence, kept);
  }

  /** The first loop of context filtering over the keys `order`, as a function. */
  function KeepPass(order: seq<string>, scores: map<string, real>, ctx: QueryContext,
                    available: Option<set<string>>): (d: Dict<string, real>)
    requires forall t :: t in order ==> t in scores
    ensures Valid(d)
    decreases |order|
  {
    if order == [] then Empty()
    else
      var d := KeepPass(order[..|order| - 1], scores, ctx, available);
      var t := order[|order| - 1];
      if Kept(ctx, available, t) then Put(d, t, Boosted(ctx, t, scores[t])) else d
  }

  /** The first loop keeps the tables that are neither excluded nor unavailable, in order, boosting suggested ones. */
  lemma {:induction false} KeepPassMeaning(order: seq<string>, scores: map<string, real>, ctx: QueryContext,
                                           available: Option<set<string>>)
    requires forall t :: t in order ==> t in scores
    requires Distinct(order)
    ensures var d := KeepPass(order, scores, ctx, available);
      && d.order == Filter(order, KeptBy(ctx, available))
      && (forall t :: t in d.entries <==> t in order && Kept(ctx, available, t))
      && (forall t :: t in d.entries ==> d.entries[t] == Boosted(ctx, t, scores[t]))
    decreases |order|
  {
    if order != [] {
      var init := order[..|order| - 1];
      var t := order[|order| - 1];
      assert order == init + [t];
      KeepPassMeaning(init, scores, ctx, available);
      FilterSnoc(init, t, KeptBy(ctx, available));
      assert t !in init;
    }
  }

  /** The first loop of context filtering, over the scored tables in order. */
  method KeepScored(scores: Dict<string, real>, ctx: QueryContext, available: Option<set<string>>)
    returns (filtered: Dict<string, real>)
    requires Valid(scores)
    ensures Valid(filtered)
    ensures filtered.order == Filter(scores.order, KeptBy(ctx, available))
    ensures forall t :: t in filtered.entries <==> t in scores.entries && Kept(ctx, available, t)
    ensures forall t :: t in filtered.entries ==> filtered.entries[t] == Boosted(ctx, t, scores.entries[t])
  {
    filtered := Empty();
    var i := 0;
    while i < |scores.order|
      invariant 0 <= i <= |scores.order|
      invariant filtered == KeepPass(scores.order[..i], scores.entries, ctx, available)
    {
      filtered := KeepStep(filtered, scores, ctx, available, i);
      i := i + 1;
    }
    assert scores.order[..i] == scores.order;
    KeepPassMeaning(scores.order, scores.entries, ctx, available);
  }

  /** The body of the first loop on the i-th scored table: skip it, or keep it with its boost. */
  method KeepStep(filtered0: Dict<string, real>, scores: Dict<string, real>, ctx: QueryContext,
                  available: Option<set<string>>, i: nat) returns (filtered: Dict<string, real>)
    requires Valid(scores) && i < |scores.order|
    requires filtered0 == KeepPass(scores.order[..i], scores.entries, ctx, available)
    ensures filtered == KeepPass(scores.order[..i + 1], scores.entries, ctx, available)
  {
    assert scores.order[..i + 1][..i] == scores.order[..i];
    filtered := filtered0;
    var table := scores.order[i];
    var score := scores.entries[table];
    if table in ctx.excludedTables {
    } else if Restricts(available) && table !in available.value {
    } else {
      if table in ctx.suggestedTables {
        score := MinReal(score + 0.1, 1.0);
      }
      filtered := Put(filtered, table, score);
    }
  }

  /** The second loop of context filtering, over the suggested set in its iteration order. */
  method AddSuggested(scores: Dict<string, real>, ctx: QueryContext, available: Option<set<string>>,
                      minConfidence: real, kept: Dict<string, real>) returns (filtered: Dict<string, real>)
    requires Valid(scores) && Valid(kept)
    requires kept.order == Filter(scores.order, KeptBy(ctx, available))
    requires forall t :: t in kept.entries <==> t in scores.entries && Kept(ctx, available, t)
    requires forall t :: t in kept.entries ==> kept.entries[t] == Boosted(ctx, t, scores.entries[t])
    ensures ContextFiltered(scores, ctx, available, minConfidence, filtered)
  {
    filtered := kept;
    var remaining := ctx.suggestedTables;
    assert filtered.order[..|kept.order|] == kept.order;
    while remaining != {}
      invariant remaining <= ctx.suggestedTables
      invariant Valid(filtered)
      invariant |kept.order| <= |filtered.order| && filtered.order[..|kept.order|] == kept.order
      invariant forall t :: t in filtered.entries <==>
        (t in scores.entries && Kept(ctx, available, t)) || (t in ctx.suggestedTables && t !in remaining && Allowed(available, t))
      invariant forall t :: t in scores.entries && Kept(ctx, available, t) ==>
        filtered.entries[t] == Boosted(ctx, t, scores.entries[t])
      invariant forall t :: t in filtered.entries && !(t in scores.entries && Kept(ctx, available, t)) ==>
        filtered.entries[t] == minConfidence
      decreases remaining
    {
      var required :| required in remaining;
      if required !in filtered.entries && (!Restricts(available) || required in available.value) {
        assert (filtered.order + [required])[..|kept.order|] == filtered.order[..|kept.order|];
        filtered := Put(filtered, required, minConfidence);
      }
      remaining := remaining - {required};
    }
  }

  /** The context rules one table at a time. */
  lemma ContextRules(scores: Dict<string, real>, ctx: QueryContext, available: Option<set<string>>,
                     minConfidence: real, filtered: Dict<string, real>, t: string)
    requires Valid(scores) && ContextFiltered(scores, ctx, available, minConfidence, filtered)
    ensures t in ctx.excludedTables && t !in ctx.suggestedTables ==> t !in filtered.entries
    ensures t in scores.entries && t in ctx.suggestedTables && Kept(ctx, available, t) ==>
      filtered.entries[t] == MinReal(scores.entries[t] + 0.1, 1.0)
    ensures t in ctx.suggestedTables && Allowed(available, t) && !(t in scores.entries && Kept(ctx, available, t)) ==>
      filtered.entries[t] == minConfidence
    ensures !Restricts(available) && t in scores.entries && t !in ctx.excludedTables ==> t in filtered.entries
    ensures Restricts(available) && t !in available.value ==> t !in filtered.entries
  {
  }

  // ---------------------------------------------------------------------
  // _distribute_columns_across_tables
  // ---------------------------------------------------------------------

  /** `col.get('table') in selected_tables` */
  predicate InTables(h: Hit, tables: seq<string>) {
    h.table.Some? && h.table.value in tables
  }

  /** Number of columns of table t. */
  function TableCount(s: seq<Hit>, t: string): nat
    decreases |s|
  {
    if s == [] then 0
    else TableCount(s[..|s| - 1], t) + (if s[|s| - 1].table == Some(t) then 1 else 0)
  }

  lemma TableCountSnoc(s: seq<Hit>, h: Hit)
    ensures forall t :: TableCount(s + [h], t) == TableCount(s, t) + (if h.table == Some(t) then 1 else 0)
  {
    assert (s + [h])[..|s|] == s;
  }

  /**
   * The greedy walk: a column is accepted when its table is selected and
   * fewer than `cap` of its columns were accepted before it.
   */
  function Distribute(s: seq<Hit>, selected: seq<string>, cap: int): (r: seq<Hit>)
    decreases |s|
  {
    if s == [] then []
    else
      var r := Distribute(s[..|s| - 1], selected, cap);
      var h := s[|s| - 1];
      if InTables(h, selected) && TableCount(r, h.table.value) < cap then r + [h] else r
  }

  method DistributeColumnsAcrossTables(columns: seq<Hit>, selected: seq<string>, cap: int)
    returns (distributed: seq<Hit>)
    ensures distributed == Distribute(SortDesc(columns, HitConfidence), selected, cap)
  {
    distributed := [];
    var counts: map<string, int> := map t | t in selected :: 0;
    var sorted := SortDesc(columns, HitConfidence);
    var k := 0;
    while k < |sorted|
      invariant 0 <= k <= |sorted|
      invariant distributed == Distribute(sorted[..k], selected, cap)
      invariant Counted(counts, distributed, selected)
    {
      distributed, counts := DistributeStep(distributed, counts, sorted, selected, cap, k);
      k := k + 1;
    }
    assert sorted[..k] == sorted;
  }

  /** The per-table counters hold the number of accepted columns of each selected table. */
  ghost predicate Counted(counts: map<string, int>, distributed: seq<Hit>, selected: seq<string>) {
    && (forall t :: t in counts <==> t in selected)
    && (forall t :: t in counts ==> counts[t] == TableCount(distributed, t))
  }

  /** The body of the walk on the k-th sorted column: accept it and count it, or pass over it. */
  method DistributeStep(distributed0: seq<Hit>, counts0: map<string, int>, sorted: seq<Hit>, selected: seq<string>,
                        cap: int, k: nat) returns (distributed: seq<Hit>, counts: map<string, int>)
    requires k < |sorted| && distributed0 == Distribute(sorted[..k], selected, cap)
    requires Counted(counts0, distributed0, selected)
    ensures distributed == Distribute(sorted[..k + 1], selected, cap)
    ensures Counted(counts, distributed, selected)
  {
    assert sorted[..k + 1][..k] == sorted[..k];
    distributed, counts := distributed0, counts0;
    var column := sorted[k];
    if column.table.Some? && column.table.value in selected && counts[column.table.value] < cap {
      TableCountSnoc(distributed, column);
      distributed := distributed + [column];
      counts := counts[column.table.value := counts[column.table.value] + 1];
    }
  }

  /** min(n, cap) accepted columns out of n candidates, none for a non-positive cap. */
  function Budget(cap: int, n: nat): nat {
    if cap <= 0 then 0 else if n <= cap then n else cap
  }

  /**
   * Every selected table gets min(cap, its candidate count) columns and no
   * other table gets any; so no table exceeds the cap and none is crowded out.
   */
  lemma {:induction false} DistributeCount(s: seq<Hit>, selected: seq<string>, cap: int, t: string)
    ensures TableCount(Distribute(s, selected, cap), t) == if t in selected then Budget(cap, TableCount(s, t)) else 0
    decreases |s|
  {
    if s != [] {
      var init := s[..|s| - 1];
      var h := s[|s| - 1];
      var r := Distribute(init, selected, cap);
      DistributeCount(init, selected, cap, t);
      if InTables(h, selected) {
        DistributeCount(init, selected, cap, h.table.value);
      }
      if InTables(h, selected) && TableCount(r, h.table.value) < cap {
        assert (r + [h])[..|r|] == r;
      }
    }
  }

  /** Accepted columns are input columns of selected tables. */
  lemma DistributeSound(s: seq<Hit>, selected: seq<string>, cap: int)
    ensures multiset(Distribute(s, selected, cap)) <= multiset(s)
    ensures forall h :: h in Distribute(s, selected, cap) ==> InTables(h, selected)
  {
    DistributeSub(s, selected, cap);
    DistributeInTables(s, selected, cap);
  }

  lemma {:induction false} DistributeSub(s: seq<Hit>, selected: seq<string>, cap: int)
    ensures multiset(Distribute(s, selected, cap)) <= multiset(s)
    decreases |s|
  {
    if s != [] {
      var init := s[..|s| - 1];
      DistributeSub(init, selected, cap);
      assert s == init + [s[|s| - 1]];
    }
  }

  lemma {:induction false} DistributeInTables(s: seq<Hit>, selected: seq<string>, cap: int)
    ensures forall h :: h in Distribute(s, selected, cap) ==> InTables(h, selected)
    decreases |s|
  {
    if s != [] {
      DistributeInTables(s[..|s| - 1], selected, cap);
    }
  }

  /** The walk keeps the descending confidence order of its input. */
  lemma {:induction false} DistributeSorted(s: seq<Hit>, selected: seq<string>, cap: int)
    requires SortedDesc(s, HitConfidence)
    ensures SortedDesc(Distribute(s, selected, cap), HitConfidence)
    decreases |s|
  {
    if s != [] {
      var init := s[..|s| - 1];
      var h := s[|s| - 1];
      var r := Distribute(init, selected, cap);
      assert SortedDesc(init, HitConfidence);
      DistributeSorted(init, selected, cap);
      DistributeSub(init, selected, cap);
      forall p | 0 <= p < |init| ensures HitConfidence(init[p]) >= HitConfidence(h) {
        assert init[p] == s[p];
      }
      AllAbove(r, init, h);
    }
  }

  /** Elements drawn from a list whose keys are all at least h's have keys at least h's. */
  lemma AllAbove(r: seq<Hit>, init: seq<Hit>, h: Hit)
    requires multiset(r) <= multiset(init)
    requires forall p :: 0 <= p < |init| ==> HitConfidence(init[p]) >= HitConfidence(h)
    ensures forall k :: 0 <= k < |r| ==> HitConfidence(r[k]) >= HitConfidence(h)
  {
    forall k | 0 <= k < |r| ensures HitConfidence(r[k]) >= HitConfidence(h) {
      assert r[k] in multiset(init);
      var p :| 0 <= p < |init| && init[p] == r[k];
    }
  }

  // ---------------------------------------------------------------------
  // select_columns
  // ---------------------------------------------------------------------

  function AtLeast(minConfidence: real): Hit -> bool {
    h => HitConfidence(h) >= minConfidence
  }

  function InTablesOf(selected: seq<string>): Hit -> bool {
    h => InTables(h, selected)
  }

  /** The 'columns' hits that reach the threshold and belong to a selected table. */
  function Candidates(minConfidence: real, columns: seq<Hit>, selected: seq<string>): seq<Hit> {
    Filter(Filter(columns, AtLeast(minConfidence)), InTablesOf(selected))
  }

  function SelectedColumns(cfg: ManagerConfig, columns: seq<Hit>, selected: seq<string>): seq<Hit> {
    Distribute(SortDesc(Candidates(cfg.minConfidence, columns, selected), HitConfidence), selected, cfg.maxColumnsPerTable)
  }

  /** f"{value}" of an optional string: None prints as "None". */
  function Show(v: Option<string>): string {
    if v.Some? then v.value else "None"
  }

  /** The "table.column" key of the confidence map. */
  function ColumnKey(h: Hit): string {
    Show(h.table) + "." + Show(h.column)
  }

  /** The comprehension {key: confidence for col in cols}: a later column overwrites an equal key. */
  function ConfidenceMap(cols: seq<Hit>): map<string, real>
    decreases |cols|
  {
    if cols == [] then map[]
    else
      var h := cols[|cols| - 1];
      ConfidenceMap(cols[..|cols| - 1])[ColumnKey(h) := HitConfidence(h)]
  }

  /** Every key comes from a column and holds the confidence of a column with that key. */
  lemma {:induction false} ConfidenceMapMeaning(cols: seq<Hit>)
    ensures forall h :: h in cols ==> ColumnKey(h) in ConfidenceMap(cols)
    ensures forall k :: k in ConfidenceMap(cols) ==>
      exists h :: h in cols && ColumnKey(h) == k && HitConfidence(h) == ConfidenceMap(cols)[k]
    decreases |cols|
  {
    if cols != [] {
      var init := cols[..|cols| - 1];
      ConfidenceMapMeaning(init);
      assert cols == init + [cols[|cols| - 1]];
    }
  }

  datatype ColumnSelection = ColumnSelection(
    selectedColumns: seq<Hit>,
    confidenceScores: map<string, real>,
    tableDistribution: map<string, nat>)

  method SelectColumns(cfg: ManagerConfig, columns: seq<Hit>, selected: seq<string>) returns (r: ColumnSelection)
    ensures r.selectedColumns == SelectedColumns(cfg, columns, selected)
    ensures r.confidenceScores == ConfidenceMap(r.selectedColumns)
    ensures forall t :: t in r.tableDistribution <==> exists h :: h in r.selectedColumns && h.table == Some(t)
    ensures forall t :: t in r.tableDistribution ==> r.tableDistribution[t] == TableCount(r.selectedColumns, t)
  {
    var high := Filter(columns, AtLeast(cfg.minConfidence));
    var relevant := Filter(high, InTablesOf(selected));
    var distributed := DistributeColumnsAcrossTables(relevant, selected, cfg.maxColumnsPerTable);
    DistributeInTables(SortDesc(relevant, HitConfidence), selected, cfg.maxColumnsPerTable);
    var distribution := CountByTable(distributed);
    r := ColumnSelection(distributed, ConfidenceMap(distributed), distribution);
  }

  /** The table_distribution loop: one more for the table of every column. */
  method CountByTable(cols: seq<Hit>) returns (distribution: map<string, nat>)
    requires forall h :: h in cols ==> h.table.Some?
    ensures forall t :: t in distribution <==> exists h :: h in cols && h.table == Some(t)
    ensures forall t :: t in distribution ==> distribution[t] == TableCount(cols, t)
  {
    distribution := map[];
    var k := 0;
    while k < |cols|
      invariant 0 <= k <= |cols|
      invariant forall t :: t in distribution <==> exists h :: h in cols[..k] && h.table == Some(t)
      invariant forall t :: t in distribution ==> distribution[t] == TableCount(cols[..k], t)
      invariant forall t :: t !in distribution ==> TableCount(cols[..k], t) == 0
    {
      var table := cols[k].table.value;
      assert cols[..k + 1] == cols[..k] + [cols[k]];
      TableCountSnoc(cols[..k], cols[k]);
      distribution := distribution[table := (if table in distribution then distribution[table] else 0) + 1];
      k := k + 1;
    }
    assert cols[..k] == cols;
  }

  /**
   * The selected columns are input columns of selected tables that reach the
   * threshold, highest confidence first.
   */
  lemma SelectedColumnsSound(cfg: ManagerConfig, columns: seq<Hit>, selected: seq<string>)
    ensures var cols := SelectedColumns(cfg, columns, selected);
      && multiset(cols) <= multiset(columns)
      && (forall h :: h in cols ==> InTables(h, selected) && HitConfidence(h) >= cfg.minConfidence)
      && SortedDesc(cols, HitConfidence)
  {
    var cands := Candidates(cfg.minConfidence, columns, selected);
    var sorted := SortDesc(cands, HitConfidence);
    var cols := SelectedColumns(cfg, columns, selected);
    DistributeSound(sorted, selected, cfg.maxColumnsPerTable);
    DistributeSorted(sorted, selected, cfg.maxColumnsPerTable);
    var high := Filter(columns, AtLeast(cfg.minConfidence));
    FilterSub(high, InTablesOf(selected));
    FilterSub(columns, AtLeast(cfg.minConfidence));
    forall h | h in cols ensures HitConfidence(h) >= cfg.minConfidence {
      assert h in multiset(cands);
      assert h in multiset(high);
      FilterMembers(high, InTablesOf(selected));
      FilterMembers(columns, AtLeast(cfg.minConfidence));
    }
  }

  /**
   * Each selected table gets min(cap, its candidates) columns, so no table
   * exceeds the cap and none is crowded out by another.
   */
  lemma SelectedColumnsBudget(cfg: ManagerConfig, columns: seq<Hit>, selected: seq<string>, t: string)
    ensures var cols := SelectedColumns(cfg, columns, selected);
      var cap := cfg.maxColumnsPerTable;
      && (t in selected ==> TableCount(cols, t) == Budget(cap, TableCount(Candidates(cfg.minConfidence, columns, selected), t)))
      && (t !in selected ==> TableCount(cols, t) == 0)
      && TableCount(cols, t) <= if cap < 0 then 0 else cap
  {
    var cands := Candidates(cfg.minConfidence, columns, selected);
    var sorted := SortDesc(cands, HitConfidence);
    DistributeCount(sorted, selected, cfg.maxColumnsPerTable, t);
    SortCount(cands, sorted);
  }

  /** Every confidence reported in the "table.column" map reaches the threshold. */
  lemma SelectedConfidences(cfg: ManagerConfig, columns: seq<Hit>, selected: seq<string>)
    ensures var m := ConfidenceMap(SelectedColumns(cfg, columns, selected));
      forall k :: k in m ==> m[k] >= cfg.minConfidence
  {
    SelectedColumnsSound(cfg, columns, selected);
    ConfidenceMapMeaning(SelectedColumns(cfg, columns, selected));
  }

  /** Per-table counts depend only on the multiset of columns. */
  lemma SortCount(a: seq<Hit>, b: seq<Hit>)
    requires multiset(a) == multiset(b)
    ensures forall t :: TableCount(a, t) == TableCount(b, t)
  {
    forall t ensures TableCount(a, t) == TableCount(b, t) {
      TableCountMultiset(a, t);
      TableCountMultiset(b, t);
    }
  }

  ghost function CountOf(m: multiset<Hit>, t: string): nat
    decreases |m|
  {
    if m == multiset{} then 0
    else
      var h :| h in m;
      CountOf(m - multiset{h}, t) + (if h.table == Some(t) then 1 else 0)
  }

  lemma {:induction false} CountOfRemove(m: multiset<Hit>, h: Hit, t: string)
    requires h in m
    ensures CountOf(m, t) == CountOf(m - multiset{h}, t) + (if h.table == Some(t) then 1 else 0)
    decreases |m|
  {
    var g :| g in m && CountOf(m, t) == CountOf(m - multiset{g}, t) + (if g.table == Some(t) then 1 else 0);
    if g != h {
      CountOfRemove(m - multiset{g}, h, t);
      CountOfRemove(m - multiset{h}, g, t);
      assert m - multiset{g} - multiset{h} == m - multiset{h} - multiset{g};
    }
  }

  lemma {:induction false} TableCountMultiset(s: seq<Hit>, t: string)
    ensures TableCount(s, t) == CountOf(multiset(s), t)
    decreases |s|
  {
    if s != [] {
      var init := s[..|s| - 1];
      var h := s[|s| - 1];
      TableCountMultiset(init, t);
      assert s == init + [h];
      assert multiset(s) - multiset{h} == multiset(init);
      CountOfRemove(multiset(s), h, t);
    }
  }

  // ---------------------------------------------------------------------
  // _infer_table_relationships
  // ---------------------------------------------------------------------

  /** (t1, t2) for each t2 in rest that the graph links to t1, in order. */
  function Row(adj: Adjacency, t1: string, rest: seq<string>): seq<(string, string)>
    decreases |rest|
  {
    if rest == [] then []
    else
      var t2 := rest[|rest| - 1];
      Row(adj, t1, rest[..|rest| - 1]) + (if t1 in adj && t2 in adj[t1] then [(t1, t2)] else [])
  }

  /** The rows of the first i outer iterations: table i against every later table. */
  function Rows(adj: Adjacency, selected: seq<string>, i: nat): seq<(string, string)>
    requires i <= |selected|
    decreases i
  {
    if i == 0 then [] else Rows(adj, selected, i - 1) + Row(adj, selected[i - 1], selected[i..])
  }

  /** The direct relationships: every later table linked to an earlier one. */
  function DirectPairs(adj: Adjacency, selected: seq<string>): seq<(string, string)> {
    Rows(adj, selected, |selected|)
  }

  lemma {:induction false} RowMeaning(adj: Adjacency, t1: string, rest: seq<string>, p: (string, string))
    ensures p in Row(adj, t1, rest) <==> exists k :: 0 <= k < |rest| && p == (t1, rest[k]) && rest[k] in Nbrs(adj, t1)
    decreases |rest|
  {
    if rest != [] {
      var init := rest[..|rest| - 1];
      RowMeaning(adj, t1, init, p);
      assert forall k :: 0 <= k < |init| ==> init[k] == rest[k];
    }
  }

  lemma {:induction false} RowsMeaning(adj: Adjacency, selected: seq<string>, i: nat, p: (string, string))
    requires i <= |selected|
    ensures p in Rows(adj, selected, i) <==>
      exists a, b :: 0 <= a < i && a < b < |selected| && p == (selected[a], selected[b]) && selected[b] in Nbrs(adj, selected[a])
    decreases i
  {
    if i > 0 {
      RowsMeaning(adj, selected, i - 1, p);
      var rest := selected[i..];
      RowMeaning(adj, selected[i - 1], rest, p);
      if p in Row(adj, selected[i - 1], rest) {
        var k :| 0 <= k < |rest| && p == (selected[i - 1], rest[k]) && rest[k] in Nbrs(adj, selected[i - 1]);
        assert rest[k] == selected[i + k];
      }
      if exists a, b :: 0 <= a < i && a < b < |selected| && p == (selected[a], selected[b]) && selected[b] in Nbrs(adj, selected[a]) {
        var a, b :| 0 <= a < i && a < b < |selected| && p == (selected[a], selected[b]) && selected[b] in Nbrs(adj, selected[a]);
        if a == i - 1 {
          assert rest[b - i] == selected[b];
        }
      }
    }
  }

  /** A pair is reported exactly when an earlier table is linked to a later one. */
  lemma DirectPairsMeaning(adj: Adjacency, selected: seq<string>, p: (string, string))
    ensures p in DirectPairs(adj, selected) <==>
      exists i, j :: 0 <= i < j < |selected| && p == (selected[i], selected[j]) && selected[j] in Nbrs(adj, selected[i])
  {
    RowsMeaning(adj, selected, |selected|, p);
  }

  /** The arrow separating the two tables of a required relationship. */
  const Arrow: char := '\U{2192}'

  /** A string with the arrow must split into exactly two parts (tuple unpacking). */
  predicate Malformed(rel: string) {
    Arrow in rel && |Split(rel, Arrow)| != 2
  }

  /** One required relationship "a → b": added when both tables are selected and the pair is new in either order. */
  function AddRequired(rels: seq<(string, string)>, selected: seq<string>, rel: string): Result<seq<(string, string)>> {
    if Arrow !in rel then Ok(rels)
    else
      var parts := Split(rel, Arrow);
      if |parts| != 2 then Err("ValueError: too many values to unpack")
      else
        var from, to := Strip(parts[0]), Strip(parts[1]);
        if from in selected && to in selected && (from, to) !in rels && (to, from) !in rels then Ok(rels + [(from, to)])
        else Ok(rels)
  }

  function AddAllRequired(rels: seq<(string, string)>, selected: seq<string>, required: seq<string>): Result<seq<(string, string)>>
    decreases |required|
  {
    if required == [] then Ok(rels)
    else
      match AddAllRequired(rels, selected, required[..|required| - 1])
      case Err(e) => Err(e)
      case Ok(r) => AddRequired(r, selected, required[|required| - 1])
  }

  function InferredRelationships(adj: Adjacency, selected: seq<string>, required: seq<string>): Result<seq<(string, string)>> {
    AddAllRequired(DirectPairs(adj, selected), selected, required)
  }

  method InferTableRelationships(adj: Adjacency, selected: seq<string>, required: seq<string>)
    returns (r: Result<seq<(string, string)>>)
    ensures r == InferredRelationships(adj, selected, required)
  {
    var relationships: seq<(string, string)> := [];
    var i := 0;
    while i < |selected|
      invariant 0 <= i <= |selected|
      invariant relationships == Rows(adj, selected, i)
    {
      var table1 := selected[i];
      var j := i + 1;
      assert selected[i + 1..i + 1] == [];
      while j < |selected|
        invariant i + 1 <= j <= |selected|
        invariant relationships == Rows(adj, selected, i) + Row(adj, table1, selected[i + 1..j])
      {
        var table2 := selected[j];
        assert selected[i + 1..j + 1][..j - i - 1] == selected[i + 1..j];
        if table1 in adj && table2 in adj[table1] {
          relationships := relationships + [(table1, table2)];
        }
        j := j + 1;
      }
      assert j == |selected|;
      assert selected[i + 1..j] == selected[i + 1..];
      i := i + 1;
    }
    var k := 0;
    while k < |required|
      invariant 0 <= k <= |required|
      invariant AddAllRequired(DirectPairs(adj, selected), selected, required[..k]) == Ok(relationships)
    {
      var rel := required[k];
      assert required[..k + 1][..k] == required[..k];
      if Arrow in rel {
        var parts := Split(rel, Arrow);
        if |parts| != 2 {
          r := Err("ValueError: too many values to unpack");
          AddAllRequiredErr(DirectPairs(adj, selected), selected, required, k + 1);
          return;
        }
        var fromTable, toTable := Strip(parts[0]), Strip(parts[1]);
        if fromTable in selected && toTable in selected {
          if (fromTable, toTable) !in relationships && (toTable, fromTable) !in relationships {
            relationships := relationships + [(fromTable, toTable)];
          }
        }
      }
      k := k + 1;
    }
    assert required[..k] == required;
    r := Ok(relationships);
  }

  /** Once a prefix fails, the whole fold fails with the same error. */
  lemma {:induction false} AddAllRequiredErr(rels: seq<(string, string)>, selected: seq<string>, required: seq<string>, n: nat)
    requires n <= |required| && AddAllRequired(rels, selected, required[..n]).Err?
    ensures AddAllRequired(rels, selected, required) == AddAllRequired(rels, selected, required[..n])
    decreases |required| - n
  {
    if n < |required| {
      assert required[..|required| - 1][..n] == required[..n];
      AddAllRequiredErr(rels, selected, required[..|required| - 1], n);
    } else {
      assert required[..n] == required;
    }
  }

  /**
   * The fold fails exactly when some string holding the arrow does not split
   * into two parts; otherwise it extends the direct pairs with pairs of
   * selected tables, each new in both orders.
   */
  lemma {:induction false} AddAllRequiredMeaning(rels: seq<(string, string)>, selected: seq<string>, required: seq<string>)
    ensures AddAllRequired(rels, selected, required).Err? <==> exists k :: 0 <= k < |required| && Malformed(required[k])
    ensures AddAllRequired(rels, selected, required).Ok? ==> Extends(rels, AddAllRequired(rels, selected, required).value, selected)
    decreases |required|
  {
    if required == [] {
      assert rels[..|rels|] == rels;
    } else {
      var init := required[..|required| - 1];
      var rel := required[|required| - 1];
      AddAllRequiredMeaning(rels, selected, init);
      assert forall k :: 0 <= k < |init| ==> init[k] == required[k];
      var prev := AddAllRequired(rels, selected, init);
      if prev.Ok? {
        AddRequiredMeaning(prev.value, selected, rel);
        var next := AddRequired(prev.value, selected, rel);
        if next.Ok? {
          ExtendsTrans(rels, prev.value, next.value, selected);
        }
      }
    }
  }

  /**
   * `r` is `rels` followed by pairs of selected tables, each absent in both
   * orders from everything before it.
   */
  predicate Extends(rels: seq<(string, string)>, r: seq<(string, string)>, selected: seq<string>) {
    && |rels| <= |r| && r[..|rels|] == rels
    && forall k :: |rels| <= k < |r| ==>
         r[k].0 in selected && r[k].1 in selected && r[k] !in r[..k] && (r[k].1, r[k].0) !in r[..k]
  }

  lemma AddRequiredMeaning(rels: seq<(string, string)>, selected: seq<string>, rel: string)
    ensures AddRequired(rels, selected, rel).Err? <==> Malformed(rel)
    ensures AddRequired(rels, selected, rel).Ok? ==> Extends(rels, AddRequired(rels, selected, rel).value, selected)
  {
    if Arrow in rel {
      var parts := Split(rel, Arrow);
      if |parts| == 2 {
        var from, to := Strip(parts[0]), Strip(parts[1]);
        AppendPairExtends(rels, selected, from, to);
      }
    }
  }

  /** Appending a pair, when add_required_relationships does, extends the list. */
  lemma AppendPairExtends(rels: seq<(string, string)>, selected: seq<string>, from: string, to: string)
    ensures Extends(rels, rels, selected)
    ensures from in selected && to in selected && (from, to) !in rels && (to, from) !in rels ==>
      Extends(rels, rels + [(from, to)], selected)
  {
    assert rels[..|rels|] == rels;
    assert (rels + [(from, to)])[..|rels|] == rels;
  }

  lemma ExtendsTrans(a: seq<(string, string)>, b: seq<(string, string)>, c: seq<(string, string)>, selected: seq<string>)
    requires Extends(a, b, selected) && Extends(b, c, selected)
    ensures Extends(a, c, selected)
  {
    assert c[..|a|] == c[..|b|][..|a|];
    forall k | |a| <= k < |c|
      ensures c[k].0 in selected && c[k].1 in selected && c[k] !in c[..k] && (c[k].1, c[k].0) !in c[..k]
    {
      if k < |b| {
        assert c[k] == b[k] && c[..k] == b[..k];
      }
    }
  }

  /**
   * The inferred relationships are the direct pairs followed by new pairs of
   * selected tables from the required strings; without required strings they
   * are exactly the linked pairs (t_i, t_j), i < j.
   */
  lemma InferredRelationshipsMeaning(adj: Adjacency, selected: seq<string>, required: seq<string>)
    ensures var r := InferredRelationships(adj, selected, required);
      var direct := DirectPairs(adj, selected);
      && (r.Err? <==> exists k :: 0 <= k < |required| && Malformed(required[k]))
      && (r.Ok? ==>
            && |direct| <= |r.value| && r.value[..|direct|] == direct
            && (forall k :: |direct| <= k < |r.value| ==>
                  r.value[k].0 in selected && r.value[k].1 in selected
                  && r.value[k] !in r.value[..k] && (r.value[k].1, r.value[k].0) !in r.value[..k]))
      && (required == [] ==> r == Ok(direct))
  {
    AddAllRequiredMeaning(DirectPairs(adj, selected), selected, required);
    assert required == [] ==> InferredRelationships(adj, selected, required) == Ok(DirectPairs(adj, selected));
  }

  // ---------------------------------------------------------------------
  // The manager and select_tables
  // ---------------------------------------------------------------------

  /** A SchemaManager: its settings, its query analyzer and the graph built from the table patterns. */
  datatype SchemaManager = SchemaManager(config: ManagerConfig, analyzer: Analyzer, adjacency: Adjacency)

  /** __init__: a missing analyzer is replaced by the default one; the graph is built from the declarations. */
  method NewSchemaManager(analyzer: Option<Analyzer>, config: ManagerConfig, decls: seq<TableDeclaration>)
    returns (m: SchemaManager)
    requires analyzer.Some? ==> WellFormed(analyzer.value)
    ensures WellFormed(m.analyzer)
    ensures m.config == config
    ensures m.analyzer == if analyzer.Some? then analyzer.value else DefaultAnalyzer()
    ensures m.adjacency == Links(Declared(decls))
  {
    var g := BuildRelationshipGraph(decls);
    m := SchemaManager(config, if analyzer.Some? then analyzer.value else DefaultAnalyzer(), g.adjacency);
  }

  datatype TableSelection = TableSelection(
    selectedTables: seq<string>,
    confidenceScores: Dict<string, real>,
    relationships: seq<(string, string)>,
    excludedTables: set<string>,
    bridgeTablesAdded: seq<string>)

  /** The scores with each of `keys` set to `v` in turn. */
  function PutAll(d: Dict<string, real>, keys: seq<string>, v: real): (r: Dict<string, real>)
    requires Valid(d)
    ensures Valid(r)
    decreases |keys|
  {
    if keys == [] then d else Put(PutAll(d, keys[..|keys| - 1], v), keys[|keys| - 1], v)
  }

  /** Setting keys keeps the existing order as a prefix, adds the keys and changes no other score. */
  lemma PutAllMeaning(d: Dict<string, real>, keys: seq<string>, v: real)
    requires Valid(d)
    ensures |d.order| <= |PutAll(d, keys, v).order| && PutAll(d, keys, v).order[..|d.order|] == d.order
    ensures forall t :: t in PutAll(d, keys, v).entries <==> t in d.entries || t in keys
    ensures forall t :: t in keys ==> PutAll(d, keys, v).entries[t] == v
    ensures forall t :: t in d.entries && t !in keys ==> PutAll(d, keys, v).entries[t] == d.entries[t]
  {
    PutAllOrder(d, keys, v);
    forall t ensures (t in PutAll(d, keys, v).entries <==> t in d.entries || t in keys)
      && (t in keys ==> PutAll(d, keys, v).entries[t] == v)
      && (t in d.entries && t !in keys ==> PutAll(d, keys, v).entries[t] == d.entries[t])
    {
      PutAllEntry(d, keys, v, t);
    }
  }

  lemma {:induction false} PutAllOrder(d: Dict<string, real>, keys: seq<string>, v: real)
    requires Valid(d)
    ensures |d.order| <= |PutAll(d, keys, v).order| && PutAll(d, keys, v).order[..|d.order|] == d.order
    decreases |keys|
  {
    if keys == [] {
      assert d.order[..|d.order|] == d.order;
    } else {
      var init := keys[..|keys| - 1];
      PutAllOrder(d, init, v);
      var p := PutAll(d, init, v);
      assert (p.order + [keys[|keys| - 1]])[..|d.order|] == p.order[..|d.order|];
    }
  }

  lemma {:induction false} PutAllEntry(d: Dict<string, real>, keys: seq<string>, v: real, t: string)
    requires Valid(d)
    ensures t in PutAll(d, keys, v).entries <==> t in d.entries || t in keys
    ensures t in keys ==> PutAll(d, keys, v).entries[t] == v
    ensures t in d.entries && t !in keys ==> PutAll(d, keys, v).entries[t] == d.entries[t]
    decreases |keys|
  {
    if keys != [] {
      var n := |keys| - 1;
      var init := keys[..n];
      PutAllEntry(d, init, v, t);
      assert PutAll(d, keys, v).entries == PutAll(d, init, v).entries[keys[n] := v];
      InitOrLast(keys, t);
    }
  }

  /** final_confidence_scores: a copy of the filtered scores with every bridge set to the minimum confidence. */
  method AssignBridgeConfidence(filtered: Dict<string, real>, bridges: seq<string>, minConfidence: real)
    returns (scores: Dict<string, real>)
    requires Valid(filtered)
    ensures scores == PutAll(filtered, bridges, minConfidence)
  {
    scores := filtered;
    var k := 0;
    while k < |bridges|
      invariant 0 <= k <= |bridges|
      invariant scores == PutAll(filtered, bridges[..k], minConfidence)
    {
      assert bridges[..k + 1][..k] == bridges[..k];
      scores := Put(scores, bridges[k], minConfidence);
      k := k + 1;
    }
    assert bridges[..k] == bridges;
  }

  /**
   * select_tables without its reasoning string: the query is analysed, the
   * hits are scored and thresholded, context filtering applies when enabled,
   * completion starts from the first max_tables keys in insertion order and
   * joins every pair of them through shortest-path bridges, bridges get the
   * minimum confidence and the relationships are the linked
   * pairs of the completed list. Empty hits and no suggestions select nothing.
   */
  method SelectTables(m: SchemaManager, query: string, columns: seq<Hit>, tables: seq<Hit>,
                      available: Option<set<string>>)
    returns (r: TableSelection, ghost ctx: QueryContext, ghost filtered: Dict<string, real>)
    requires WellFormed(m.analyzer)
    ensures Analysis(m.analyzer, query, ctx)
    ensures var high := FilterByConfidence(ExtractTables(columns, tables), m.config.minConfidence);
      if m.config.enableContextFiltering then ContextFiltered(high, ctx, available, m.config.minConfidence, filtered)
      else filtered == high
    ensures var initial := PyPrefix(filtered.order, m.config.maxTables);
      && (!m.config.enableRelationshipCompletion || |initial| <= 1 ==>
            r.selectedTables == initial && r.bridgeTablesAdded == [])
      && (m.config.enableRelationshipCompletion && |initial| > 1 ==>
            && StrictlyIncreasing(r.selectedTables) && StrictlyIncreasing(r.bridgeTablesAdded)
            && (forall x :: x in r.selectedTables <==> x in initial || x in r.bridgeTablesAdded)
            && (forall x :: x in r.bridgeTablesAdded ==> x !in initial)
            && (forall b :: b in r.bridgeTablesAdded ==> exists i, j, p :: BridgeFor(m.adjacency, initial, b, i, j, p))
            && (forall i, j :: 0 <= i < j < |initial| ==>
                  Joined(m.adjacency, initial[i], initial[j], SetOf(r.selectedTables))))
    ensures Valid(r.confidenceScores)
    ensures forall t :: t in r.confidenceScores.entries <==> t in filtered.entries || t in r.bridgeTablesAdded
    ensures forall t :: t in r.bridgeTablesAdded ==> r.confidenceScores.entries[t] == m.config.minConfidence
    ensures forall t :: t in filtered.entries && t !in r.bridgeTablesAdded ==>
      r.confidenceScores.entries[t] == filtered.entries[t]
    ensures r.relationships == DirectPairs(m.adjacency, r.selectedTables)
    ensures r.excludedTables == ctx.excludedTables
    ensures columns == [] && tables == [] && (!m.config.enableContextFiltering || ctx.suggestedTables == {}) ==>
      r.selectedTables == [] && r.bridgeTablesAdded == []
  {
    var context := AnalyzeQuery(m.analyzer, query);
    ctx := context;
    var semantic := ExtractTablesFromSemanticResults(columns, tables);
    var high := FilterByConfidence(semantic, m.config.minConfidence);
    var chosen;
    if m.config.enableContextFiltering {
      chosen := ApplyContextFiltering(high, context, available, m.config.minConfidence);
    } else {
      chosen := high;
    }
    filtered := chosen;
    var initial := PyPrefix(chosen.order, m.config.maxTables);
    var completed, bridges := CompleteTableRelationships(m.adjacency, m.config.enableRelationshipCompletion, initial);
    var scores := AssignBridgeConfidence(chosen, bridges, m.config.minConfidence);
    PutAllMeaning(chosen, bridges, m.config.minConfidence);
    var inferred := InferTableRelationships(m.adjacency, completed, context.requiredRelationships);
    InferredRelationshipsMeaning(m.adjacency, completed, context.requiredRelationships);
    r := TableSelection(completed, scores, inferred.value, context.excludedTables, bridges);
    if columns == [] && tables == [] && (!m.config.enableContextFiltering || ctx.suggestedTables == {}) {
      EmptySelection(m, context, available, chosen);
    }
  }

  /** Without hits or suggestions nothing survives filtering. */
  lemma EmptySelection(m: SchemaManager, ctx: QueryContext, available: Option<set<string>>, filtered: Dict<string, real>)
    requires !m.config.enableContextFiltering || ctx.suggestedTables == {}
    requires var high := FilterByConfidence(ExtractTables([], []), m.config.minConfidence);
      if m.config.enableContextFiltering then ContextFiltered(high, ctx, available, m.config.minConfidence, filtered)
      else filtered == high
    ensures filtered.order == []
  {
    var high := FilterByConfidence(ExtractTables([], []), m.config.minConfidence);
    assert high.entries == map[];
    assert filtered.entries.Keys == {};
    DistinctSetCard(filtered.order);
    assert SetOf(filtered.order) == filtered.entries.Keys;
  }

  /** The reasoning helper declares eight parameters after self. */
  const ReasoningParameters: nat := 8

  /** select_tables calls it with seven positional arguments. */
  const ReasoningArguments: nat := 7

  /** Binding positional arguments: a count that differs from the parameters raises a TypeError. */
  function BindArguments(passed: nat, declared: nat): (r: Result<()>)
    ensures r.Ok? <==> passed == declared
  {
    if passed == declared then Ok(()) else Err("TypeError: missing a required positional argument")
  }

  /** select_tables as written: every stage runs, then the reasoning call raises. */
  method SelectTablesAsWritten(m: SchemaManager, query: string, columns: seq<Hit>, tables: seq<Hit>,
                               available: Option<set<string>>) returns (r: Result<TableSelection>)
    requires WellFormed(m.analyzer)
    ensures r.Err?
  {
    var selection;
    ghost var ctx, filtered;
    selection, ctx, filtered := SelectTables(m, query, columns, tables, available);
    var bound := BindArguments(ReasoningArguments, ReasoningParameters);
    if bound.Ok? {
      r := Ok(selection);
    } else {
      r := Err(bound.message);
    }
  }
}
