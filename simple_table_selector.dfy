// The selector the prompt pipeline uses (simple_table_selector.py): best
// score per table, a 0.15 floor, hard-coded keyword exclusion groups,
// rule-based bridge tables and a final cut to max_tables.

module SimpleSelection {
  import opened Wrappers
  import opened Strings
  import opened Sequences
  import opened Dicts
  import opened Hits
  import opened ScoreRanking

  /** Rule keys "a+b" (tables joined by '+') mapped to the bridge tables they need. */
  type BridgeRules = Dict<string, seq<string>>

  /** The built-in rules: customer and product together need the two order tables. */
  function DefaultRules(): (r: BridgeRules)
    ensures Valid(r)
  {
    Dict(["cust+prd_mstr", "prd_mstr+cust"],
         map["cust+prd_mstr" := ["ord_hdr", "ord_ln"], "prd_mstr+cust" := ["ord_hdr", "ord_ln"]])
  }

  datatype SimpleTableSelector = SimpleTableSelector(bridgeRules: BridgeRules)

  /** __init__: `bridge_table_rules or {...}`, so None and an empty dict both give the built-in rules. */
  function NewSelector(rules: Option<BridgeRules>): (s: SimpleTableSelector)
    ensures rules.Some? && rules.value.entries != map[] ==> s.bridgeRules == rules.value
    ensures rules.None? || rules.value.entries == map[] ==> s.bridgeRules == DefaultRules()
  {
    if rules.Some? && rules.value.entries != map[] then SimpleTableSelector(rules.value)
    else SimpleTableSelector(DefaultRules())
  }

  /** The floor of _filter_low_confidence. */
  const MinScore: real := 0.15

  // ---------------------------------------------------------------------
  // _apply_query_filtering
  // ---------------------------------------------------------------------

  const EmployeeWords: seq<string> := ["employee", "staff", "worker"]
  const CustomerWords: seq<string> := ["customer", "client", "buyer"]
  const ProductWords: seq<string> := ["product", "item", "inventory"]

  /** any(word in query_lower for word in words) */
  predicate AnyWord(ql: string, words: seq<string>) {
    exists k :: 0 <= k < |words| && Contains(ql, words[k])
  }

  /** The exclusions of the first matching group only: employee, then customer, then product. */
  function QueryExclusions(ql: string): set<string> {
    if AnyWord(ql, EmployeeWords) then {"cust", "wh_mstr", "mkt_cmp"}
    else if AnyWord(ql, CustomerWords) then {"emp_mstr", "wh_mstr"}
    else if AnyWord(ql, ProductWords) then {"emp_mstr", "wh_mstr", "mkt_cmp"}
    else {}
  }

  function NotExcluded(excluded: set<string>): ((string, real)) -> bool {
    (p: (string, real)) => p.0 !in excluded
  }

  /** The (table, score) items by score, highest first (a stable sort), without the excluded ones. */
  function RankedItems(query: string, scores: Dict<string, real>): seq<(string, real)>
    requires Valid(scores)
  {
    Filter(SortDesc(Items(scores), Second), NotExcluded(QueryExclusions(ToLower(query))))
  }

  /** The table names of RankedItems. */
  function ApplyQueryFiltering(query: string, scores: Dict<string, real>): seq<string>
    requires Valid(scores)
  {
    Map(RankedItems(query, scores), First)
  }

  /** Every ranked item is an entry of the dict outside the exclusions. */
  lemma RankedItemsSound(query: string, scores: Dict<string, real>, k: nat)
    requires Valid(scores) && k < |RankedItems(query, scores)|
    ensures var x := RankedItems(query, scores)[k];
      x.0 in scores.entries && scores.entries[x.0] == x.1 && x.0 !in QueryExclusions(ToLower(query))
  {
    var ranked := SortDesc(Items(scores), Second);
    var kept := RankedItems(query, scores);
    FilterSub(ranked, NotExcluded(QueryExclusions(ToLower(query))));
    assert kept[k] in multiset(ranked);
    ItemsMember(scores, kept[k]);
  }

  /** Every entry outside the exclusions is ranked. */
  lemma RankedItemsComplete(query: string, scores: Dict<string, real>, t: string)
    requires Valid(scores) && t in scores.entries && t !in QueryExclusions(ToLower(query))
    ensures t in ApplyQueryFiltering(query, scores)
  {
    var excluded := QueryExclusions(ToLower(query));
    var items := Items(scores);
    var ranked := SortDesc(items, Second);
    var kept := RankedItems(query, scores);
    FilterMembers(ranked, NotExcluded(excluded));
    var i :| 0 <= i < |scores.order| && scores.order[i] == t;
    assert items[i] == (t, scores.entries[t]);
    assert items[i] in multiset(ranked);
    assert items[i] in kept;
    var k :| 0 <= k < |kept| && kept[k] == items[i];
    assert ApplyQueryFiltering(query, scores)[k] == t;
  }

  /** No table is listed twice. */
  lemma QueryFilteringDistinct(query: string, scores: Dict<string, real>)
    requires Valid(scores)
    ensures Distinct(ApplyQueryFiltering(query, scores))
  {
    var items := Items(scores);
    assert Map(items, First) == scores.order;
    var ranked := SortDesc(items, Second);
    DistinctMapPermutation(items, ranked, First);
    DistinctMapFilter(ranked, NotExcluded(QueryExclusions(ToLower(query))), First);
  }

  /**
   * The filtered list holds every scored table outside the exclusions once,
   * in non-increasing score order.
   */
  lemma QueryFilteringMeaning(query: string, scores: Dict<string, real>)
    requires Valid(scores)
    ensures var r := ApplyQueryFiltering(query, scores);
      var excluded := QueryExclusions(ToLower(query));
      && Distinct(r)
      && (forall t :: t in r <==> t in scores.entries && t !in excluded)
      && (forall t :: t in r ==> t in scores.entries)
      && (forall i, j :: 0 <= i < j < |r| ==> scores.entries[r[i]] >= scores.entries[r[j]])
  {
    var excluded := QueryExclusions(ToLower(query));
    var kept := RankedItems(query, scores);
    var r := ApplyQueryFiltering(query, scores);
    QueryFilteringDistinct(query, scores);
    FilterSortedDesc(SortDesc(Items(scores), Second), NotExcluded(excluded), Second);
    forall k | 0 <= k < |kept|
      ensures r[k] in scores.entries && scores.entries[r[k]] == kept[k].1 && r[k] !in excluded
    {
      RankedItemsSound(query, scores, k);
    }
    forall t | t in scores.entries && t !in excluded ensures t in r {
      RankedItemsComplete(query, scores, t);
    }
  }

  // ---------------------------------------------------------------------
  // _add_bridge_tables
  // ---------------------------------------------------------------------

  /** set(rule_key.split('+')) */
  function RuleTables(key: string): set<string> {
    SetOf(Split(key, '+'))
  }

  /** The inner loop: each bridge not yet in the list is appended. */
  function AppendNew(final: seq<string>, bridges: seq<string>): seq<string>
    decreases |bridges|
  {
    if bridges == [] then final
    else
      var f := AppendNew(final, bridges[..|bridges| - 1]);
      var b := bridges[|bridges| - 1];
      if b !in f then f + [b] else f
  }

  /** The outer loop over the rule keys: a rule fires when all its tables are among the relevant ones. */
  function Bridged(rules: BridgeRules, keys: seq<string>, relevant: seq<string>): seq<string>
    requires forall k :: k in keys ==> k in rules.entries
    decreases |keys|
  {
    if keys == [] then relevant
    else
      var f := Bridged(rules, keys[..|keys| - 1], relevant);
      var key := keys[|keys| - 1];
      if RuleTables(key) <= SetOf(relevant) then AppendNew(f, rules.entries[key]) else f
  }

  method AddBridgeTables(rules: BridgeRules, relevant: seq<string>) returns (final: seq<string>)
    requires Valid(rules)
    ensures final == Bridged(rules, rules.order, relevant)
  {
    final := relevant;
    var tableSet := SetOf(relevant);
    var i := 0;
    while i < |rules.order|
      invariant 0 <= i <= |rules.order|
      invariant final == Bridged(rules, rules.order[..i], relevant)
    {
      var ruleKey := rules.order[i];
      var bridgeTables := rules.entries[ruleKey];
      var ruleTables := SetOf(Split(ruleKey, '+'));
      assert rules.order[..i + 1][..i] == rules.order[..i];
      if ruleTables <= tableSet {
        ghost var before := final;
        var j := 0;
        while j < |bridgeTables|
          invariant 0 <= j <= |bridgeTables|
          invariant final == AppendNew(before, bridgeTables[..j])
        {
          assert bridgeTables[..j + 1][..j] == bridgeTables[..j];
          if bridgeTables[j] !in final {
            final := final + [bridgeTables[j]];
          }
          j := j + 1;
        }
        assert bridgeTables[..j] == bridgeTables;
      }
      i := i + 1;
    }
    assert rules.order[..i] == rules.order;
  }

  /** Appending only new bridges keeps the list as a prefix and adds no duplicate. */
  lemma {:induction false} AppendNewMeaning(final: seq<string>, bridges: seq<string>)
    ensures var r := AppendNew(final, bridges);
      && |final| <= |r| && r[..|final|] == final
      && (forall x :: x in r <==> x in final || x in bridges)
      && (Distinct(final) ==> Distinct(r))
    decreases |bridges|
  {
    if bridges == [] {
      assert final[..|final|] == final;
    } else {
      var init := bridges[..|bridges| - 1];
      AppendNewMeaning(final, init);
      assert bridges == init + [bridges[|bridges| - 1]];
      var f := AppendNew(final, init);
      assert (f + [bridges[|bridges| - 1]])[..|final|] == f[..|final|];
    }
  }

  /**
   * The relevant tables stay a prefix; the added tables are exactly the bridges
   * of the rules whose tables are all relevant; no duplicate is introduced.
   */
  lemma {:induction false} BridgedMeaning(rules: BridgeRules, keys: seq<string>, relevant: seq<string>)
    requires forall k :: k in keys ==> k in rules.entries
    ensures var r := Bridged(rules, keys, relevant);
      && |relevant| <= |r| && r[..|relevant|] == relevant
      && (forall x :: x in r <==> (x in relevant ||
            exists k :: 0 <= k < |keys| && RuleTables(keys[k]) <= SetOf(relevant) && x in rules.entries[keys[k]]))
      && (Distinct(relevant) ==> Distinct(r))
    decreases |keys|
  {
    if keys == [] {
      assert relevant[..|relevant|] == relevant;
    } else {
      var init := keys[..|keys| - 1];
      var key := keys[|keys| - 1];
      assert forall k :: 0 <= k < |init| ==> init[k] == keys[k];
      BridgedMeaning(rules, init, relevant);
      var f := Bridged(rules, init, relevant);
      if RuleTables(key) <= SetOf(relevant) {
        AppendNewMeaning(f, rules.entries[key]);
        assert AppendNew(f, rules.entries[key])[..|relevant|] == AppendNew(f, rules.entries[key])[..|f|][..|relevant|];
      }
    }
  }

  // ---------------------------------------------------------------------
  // select_tables
  // ---------------------------------------------------------------------

  /** Steps 1 to 3: best scores, the floor, the query's exclusions and the score order. */
  function Relevant(query: string, columns: seq<Hit>, tables: seq<Hit>): seq<string> {
    ApplyQueryFiltering(query, FilterByConfidence(BestScores(columns + tables), MinScore))
  }

  function Selection(s: SimpleTableSelector, query: string, columns: seq<Hit>, tables: seq<Hit>, maxTables: int): seq<string>
    requires Valid(s.bridgeRules)
  {
    PyPrefix(Bridged(s.bridgeRules, s.bridgeRules.order, Relevant(query, columns, tables)), maxTables)
  }

  method SelectTables(s: SimpleTableSelector, query: string, columns: seq<Hit>, tables: seq<Hit>, maxTables: int)
    returns (r: seq<string>)
    requires Valid(s.bridgeRules)
    ensures r == Selection(s, query, columns, tables, maxTables)
  {
    var tableScores := ComputeBestScores(columns, tables);
    var filtered := FilterByConfidence(tableScores, MinScore);
    var relevant := ApplyQueryFiltering(query, filtered);
    var final := AddBridgeTables(s.bridgeRules, relevant);
    r := PyPrefix(final, maxTables);
  }

  /** Steps 1 to 3 keep exactly the non-excluded tables whose best score is at least 0.15, once each, best first. */
  lemma RelevantMeaning(query: string, columns: seq<Hit>, tables: seq<Hit>)
    ensures var relevant := Relevant(query, columns, tables);
      var best := BestScores(columns + tables).entries;
      && Distinct(relevant)
      && (forall t :: t in relevant <==> t in best && best[t] >= MinScore && t !in QueryExclusions(ToLower(query)))
      && (forall i, j :: 0 <= i < j < |relevant| ==> best[relevant[i]] >= best[relevant[j]])
  {
    var scores := FilterByConfidence(BestScores(columns + tables), MinScore);
    QueryFilteringMeaning(query, scores);
  }

  /** Bridging followed by the cut to max_tables, for any list of relevant tables. */
  lemma {:induction false} BridgedPrefix(rules: BridgeRules, relevant: seq<string>, maxTables: int)
    requires Valid(rules) && Distinct(relevant)
    ensures var final := Bridged(rules, rules.order, relevant);
      var r := PyPrefix(final, maxTables);
      && (0 <= maxTables ==> |r| <= maxTables)
      && Distinct(r)
      && r == final[..|r|] && |relevant| <= |final| && final[..|relevant|] == relevant
      && (forall t :: t in r ==> (t in relevant ||
            exists k :: 0 <= k < |rules.order| && RuleTables(rules.order[k]) <= SetOf(relevant)
                        && t in rules.entries[rules.order[k]]))
  {
    BridgedMeaning(rules, rules.order, relevant);
    var final := Bridged(rules, rules.order, relevant);
    var r := PyPrefix(final, maxTables);
    assert forall t :: t in r ==> t in final;
  }

  /**
   * The selection has at most max_tables distinct tables and is a prefix of
   * the relevant tables followed by the bridges; each added table is a bridge
   * of a rule whose tables are all relevant.
   */
  lemma SelectionProperties(s: SimpleTableSelector, query: string, columns: seq<Hit>, tables: seq<Hit>, maxTables: int)
    requires Valid(s.bridgeRules)
    ensures var r := Selection(s, query, columns, tables, maxTables);
      var relevant := Relevant(query, columns, tables);
      var final := Bridged(s.bridgeRules, s.bridgeRules.order, relevant);
      var rules := s.bridgeRules;
      && (0 <= maxTables ==> |r| <= maxTables)
      && Distinct(r)
      && r == final[..|r|] && |relevant| <= |final| && final[..|relevant|] == relevant
      && (forall t :: t in r ==> (t in relevant ||
            exists k :: 0 <= k < |rules.order| && RuleTables(rules.order[k]) <= SetOf(relevant)
                        && t in rules.entries[rules.order[k]]))
  {
    RelevantMeaning(query, columns, tables);
    BridgedPrefix(s.bridgeRules, Relevant(query, columns, tables), maxTables);
  }
}
