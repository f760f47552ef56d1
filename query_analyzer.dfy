// The query context classifier (sql_generator/core/query_analyzer.py):
// configurable query patterns are scored against the lower-cased query, the
// best one suggests and excludes tables, and table patterns add their own
// suggestions and exclusions.

module QueryAnalysis {
  import opened Wrappers
  import opened Strings
  import opened Sequences

  datatype QueryPattern = QueryPattern(
    patternId: string,
    keywords: seq<string>,
    requiredTables: seq<string>,
    optionalTables: seq<string>,
    excludedTables: seq<string>,
    confidenceBoost: real)

  datatype TablePattern = TablePattern(
    tableName: string,
    keywords: seq<string>,
    aliases: seq<string>,
    relationships: seq<string>,
    exclusionPatterns: seq<string>)

  datatype QueryContext = QueryContext(
    queryType: string,
    keywords: seq<string>,
    confidence: real,
    suggestedTables: set<string>,
    excludedTables: set<string>,
    requiredRelationships: seq<string>)

  datatype DomainConfig = DomainConfig(
    minConfidenceThreshold: real,
    maxTablesPerQuery: int,
    enableRelationshipInference: bool,
    strictMode: bool)

  /**
   * The analyzer's configuration; the two pattern dictionaries are kept as
   * their values() in insertion order.
   */
  datatype Analyzer = Analyzer(
    tablePatterns: seq<TablePattern>,
    queryPatterns: seq<QueryPattern>,
    domainConfig: DomainConfig)

  /** The key table_patterns stores a table pattern under. */
  function TableKey(p: TablePattern): string { p.tableName }

  /** The key query_patterns stores a query pattern under. */
  function QueryKey(p: QueryPattern): string { p.patternId }

  /** No two values of the dictionary share a key. */
  predicate DistinctKeys<T>(vs: seq<T>, key: T -> string) {
    forall i, j :: 0 <= i < j < |vs| ==> key(vs[i]) != key(vs[j])
  }

  /** The pattern sequences are the values of dictionaries keyed by table name and pattern id. */
  predicate WellFormed(a: Analyzer) {
    DistinctKeys(a.tablePatterns, TableKey) && DistinctKeys(a.queryPatterns, QueryKey)
  }

  /** d[key(x)] = x on the values of d: the entry with x's key is overwritten in place, or x is appended. */
  function Assign<T>(vs: seq<T>, x: T, key: T -> string): seq<T>
    decreases |vs|
  {
    if vs == [] then [x]
    else if key(vs[0]) == key(x) then [x] + vs[1..]
    else [vs[0]] + Assign(vs[1..], x, key)
  }

  /** The values of a dictionary filled by d[key(x)] = x for each x of xs in turn. */
  function Keyed<T>(xs: seq<T>, key: T -> string): seq<T>
    decreases |xs|
  {
    if xs == [] then [] else Assign(Keyed(xs[..|xs| - 1], key), xs[|xs| - 1], key)
  }

  lemma MapCons<T>(y: T, rest: seq<T>, key: T -> string)
    ensures Map([y] + rest, key) == [key(y)] + Map(rest, key)
  {
  }

  /** Assigning x leaves the keys alone when x's key is present, and appends it otherwise. */
  lemma {:induction false} AssignKeys<T>(vs: seq<T>, x: T, key: T -> string)
    ensures Map(Assign(vs, x, key), key) ==
      if key(x) in Map(vs, key) then Map(vs, key) else Map(vs, key) + [key(x)]
    decreases |vs|
  {
    if vs != [] {
      var rest := vs[1..];
      assert vs == [vs[0]] + rest;
      MapCons(vs[0], rest, key);
      if key(vs[0]) == key(x) {
        MapCons(x, rest, key);
      } else {
        AssignKeys(rest, x, key);
        MapCons(vs[0], Assign(rest, x, key), key);
        if key(x) !in Map(rest, key) {
          assert [key(vs[0])] + (Map(rest, key) + [key(x)]) == Map(vs, key) + [key(x)];
        }
      }
    }
  }

  /** Assigning x stores x, keeps every value with another key and adds nothing else. */
  lemma {:induction false} AssignMembers<T>(vs: seq<T>, x: T, key: T -> string)
    ensures x in Assign(vs, x, key)
    ensures forall y :: y in Assign(vs, x, key) ==> y in vs || y == x
    ensures forall y :: y in vs && key(y) != key(x) ==> y in Assign(vs, x, key)
    decreases |vs|
  {
    if vs != [] {
      AssignMembers(vs[1..], x, key);
      assert vs == [vs[0]] + vs[1..];
    }
  }

  /**
   * The keys of the dictionary load_config builds are the configured keys
   * without repeats, in the order of their first occurrence.
   */
  lemma {:induction false} KeyedKeys<T>(xs: seq<T>, key: T -> string)
    ensures Map(Keyed(xs, key), key) == Dedup(Map(xs, key))
    decreases |xs|
  {
    if xs != [] {
      var n := |xs| - 1;
      KeyedKeys(xs[..n], key);
      AssignKeys(Keyed(xs[..n], key), xs[n], key);
      assert Map(xs, key)[..n] == Map(xs[..n], key);
    }
  }

  /** Hence no two values of that dictionary share a key. */
  lemma KeyedDistinct<T>(xs: seq<T>, key: T -> string)
    ensures DistinctKeys(Keyed(xs, key), key)
  {
    KeyedKeys(xs, key);
    var r := Keyed(xs, key);
    assert forall i :: 0 <= i < |r| ==> Map(r, key)[i] == key(r[i]);
  }

  /** Every stored value is a configured entry. */
  lemma {:induction false} KeyedFrom<T>(xs: seq<T>, key: T -> string)
    ensures forall y :: y in Keyed(xs, key) ==> y in xs
    decreases |xs|
  {
    if xs != [] {
      var n := |xs| - 1;
      KeyedFrom(xs[..n], key);
      AssignMembers(Keyed(xs[..n], key), xs[n], key);
      forall y | y in xs[..n] ensures y in xs {
        InitOrLast(xs, y);
      }
    }
  }

  /** The entry given last for a key is the stored one. */
  lemma {:induction false} KeyedLast<T>(xs: seq<T>, key: T -> string, j: nat)
    requires j < |xs| && forall l :: j < l < |xs| ==> key(xs[l]) != key(xs[j])
    ensures xs[j] in Keyed(xs, key)
    decreases |xs|
  {
    var n := |xs| - 1;
    AssignMembers(Keyed(xs[..n], key), xs[n], key);
    if j < n {
      var init := xs[..n];
      assert forall l :: j < l < n ==> init[l] == xs[l];
      KeyedLast(init, key, j);
      assert init[j] == xs[j];
    }
  }

  /**
   * The pattern part of load_config: every configured pattern is stored under
   * its table name (or pattern id), so a later pattern for the same key
   * replaces the earlier one in its place.
   */
  method LoadPatterns(tableConfigs: seq<TablePattern>, queryConfigs: seq<QueryPattern>, domain: DomainConfig)
    returns (a: Analyzer)
    ensures a.tablePatterns == Keyed(tableConfigs, TableKey)
    ensures a.queryPatterns == Keyed(queryConfigs, QueryKey)
    ensures a.domainConfig == domain
    ensures WellFormed(a)
  {
    var tps: seq<TablePattern> := [];
    for k := 0 to |tableConfigs|
      invariant tps == Keyed(tableConfigs[..k], TableKey)
    {
      assert tableConfigs[..k + 1][..k] == tableConfigs[..k];
      tps := Assign(tps, tableConfigs[k], TableKey);
    }
    var qps: seq<QueryPattern> := [];
    for k := 0 to |queryConfigs|
      invariant qps == Keyed(queryConfigs[..k], QueryKey)
    {
      assert queryConfigs[..k + 1][..k] == queryConfigs[..k];
      qps := Assign(qps, queryConfigs[k], QueryKey);
    }
    assert tableConfigs[..|tableConfigs|] == tableConfigs;
    assert queryConfigs[..|queryConfigs|] == queryConfigs;
    KeyedDistinct(tableConfigs, TableKey);
    KeyedDistinct(queryConfigs, QueryKey);
    a := Analyzer(tps, qps, domain);
  }

  /** _load_default_config: one keyword-less 'generic_search' pattern and no table patterns. */
  function DefaultAnalyzer(): (a: Analyzer)
    ensures |a.queryPatterns| == 1 && a.queryPatterns[0].keywords == [] && a.tablePatterns == []
    ensures WellFormed(a)
  {
    Analyzer(
      [],
      [QueryPattern("generic_search", [], [], [], [], 0.0)],
      DomainConfig(0.5, 5, true, false))
  }

  /** Number of keywords occurring as substrings of the query. */
  function HitCount(query: string, keywords: seq<string>): (n: nat)
    ensures n <= |keywords|
    ensures n == 0 <==> forall k :: 0 <= k < |keywords| ==> !Contains(query, keywords[k])
    ensures n == |keywords| <==> forall k :: 0 <= k < |keywords| ==> Contains(query, keywords[k])
  {
    if keywords == [] then 0
    else (if Contains(query, keywords[0]) then 1 else 0) + HitCount(query, keywords[1..])
  }

  function MinReal(a: real, b: real): real {
    if a <= b then a else b
  }

  /** _calculate_pattern_confidence */
  function PatternConfidence(query: string, p: QueryPattern): (r: real)
    ensures p.keywords == [] ==> r == 0.0
    ensures r <= 1.0
    ensures p.keywords != [] && p.confidenceBoost >= 0.0 ==> r >= 0.0
  {
    if p.keywords == [] then 0.0
    else
      var n := HitCount(query, p.keywords);
      RatioBounds(n, |p.keywords|);
      MinReal((n as real) / (|p.keywords| as real) + p.confidenceBoost, 1.0)
  }

  lemma RatioBounds(n: nat, m: nat)
    requires 0 < m && n <= m
    ensures 0.0 <= (n as real) / (m as real) <= 1.0
    ensures n == m ==> (n as real) / (m as real) == 1.0
    ensures n == 0 ==> (n as real) / (m as real) == 0.0
  {
    var q := (n as real) / (m as real);
    assert q * (m as real) == n as real;
  }

  /** The confidence is the hit ratio plus the boost, capped at 1.0. */
  lemma PatternConfidenceRatio(query: string, p: QueryPattern)
    requires p.keywords != []
    ensures var ratio := (HitCount(query, p.keywords) as real) / (|p.keywords| as real);
      && 0.0 <= ratio <= 1.0
      && PatternConfidence(query, p) == MinReal(ratio + p.confidenceBoost, 1.0)
  {
    RatioBounds(HitCount(query, p.keywords), |p.keywords|);
  }

  /**
   * With a non-negative boost, a query holding every keyword scores 1.0; one
   * holding none scores the (capped) boost alone.
   */
  lemma PatternConfidenceExtremes(query: string, p: QueryPattern)
    requires p.keywords != []
    ensures (p.confidenceBoost >= 0.0 && forall k :: 0 <= k < |p.keywords| ==> Contains(query, p.keywords[k]))
            ==> PatternConfidence(query, p) == 1.0
    ensures (forall k :: 0 <= k < |p.keywords| ==> !Contains(query, p.keywords[k]))
            ==> PatternConfidence(query, p) == MinReal(p.confidenceBoost, 1.0)
  {
    RatioBounds(HitCount(query, p.keywords), |p.keywords|);
  }

  /** _matches_table_pattern: some keyword occurs (never, for a pattern without keywords). */
  predicate MatchesTablePattern(query: string, p: TablePattern) {
    exists k :: 0 <= k < |p.keywords| && Contains(query, p.keywords[k])
  }

  /** _excluded_by_pattern: there are exclusion terms and none of them occurs. */
  predicate ExcludedByPattern(query: string, p: TablePattern) {
    p.exclusionPatterns != [] && forall k :: 0 <= k < |p.exclusionPatterns| ==> !Contains(query, p.exclusionPatterns[k])
  }

  /**
   * Pattern number i is the one analyze_query keeps: it scores above 0, every
   * earlier pattern scores strictly less and no later one scores more.
   */
  ghost predicate IsBestPattern(query: string, ps: seq<QueryPattern>, i: int) {
    && 0 <= i < |ps|
    && PatternConfidence(query, ps[i]) > 0.0
    && (forall j :: 0 <= j < i ==> PatternConfidence(query, ps[j]) < PatternConfidence(query, ps[i]))
    && (forall j :: i < j < |ps| ==> PatternConfidence(query, ps[j]) <= PatternConfidence(query, ps[i]))
  }

  /** The kept pattern is unique: ties go to the earlier pattern. */
  lemma BestPatternUnique(query: string, ps: seq<QueryPattern>, i: int, j: int)
    requires IsBestPattern(query, ps, i) && IsBestPattern(query, ps, j)
    ensures i == j
  {
  }

  /** Tables whose pattern matches the query. */
  function PatternSuggestions(query: string, tps: seq<TablePattern>): set<string> {
    set i | 0 <= i < |tps| && MatchesTablePattern(query, tps[i]) :: tps[i].tableName
  }

  /** Tables whose pattern does not match and whose exclusion terms are all absent. */
  function PatternExclusions(query: string, tps: seq<TablePattern>): set<string> {
    set i | 0 <= i < |tps| && !MatchesTablePattern(query, tps[i]) && ExcludedByPattern(query, tps[i]) :: tps[i].tableName
  }

  /** With one pattern per table, no table pattern both suggests and excludes its table. */
  lemma TablePatternsDisjoint(query: string, tps: seq<TablePattern>)
    requires DistinctKeys(tps, TableKey)
    ensures PatternSuggestions(query, tps) * PatternExclusions(query, tps) == {}
  {
    forall t | t in PatternSuggestions(query, tps)
      ensures t !in PatternExclusions(query, tps)
    {
      var i :| 0 <= i < |tps| && MatchesTablePattern(query, tps[i]) && tps[i].tableName == t;
      forall j | 0 <= j < |tps| && j != i
        ensures tps[j].tableName != t
      {
        assert TableKey(tps[i]) != TableKey(tps[j]);
      }
    }
  }

  /**
   * After load_config, the pattern given last for a table decides alone: the
   * table is suggested iff that pattern matches, and excluded iff it does not
   * match and its exclusion terms are non-empty and all absent.
   */
  lemma LastTablePatternDecides(query: string, configs: seq<TablePattern>, j: nat)
    requires j < |configs| && forall l :: j < l < |configs| ==> configs[l].tableName != configs[j].tableName
    ensures configs[j].tableName in PatternSuggestions(query, Keyed(configs, TableKey))
            <==> MatchesTablePattern(query, configs[j])
    ensures configs[j].tableName in PatternExclusions(query, Keyed(configs, TableKey))
            <==> !MatchesTablePattern(query, configs[j]) && ExcludedByPattern(query, configs[j])
  {
    var tps := Keyed(configs, TableKey);
    KeyedLast(configs, TableKey, j);
    KeyedDistinct(configs, TableKey);
    var i :| 0 <= i < |tps| && tps[i] == configs[j];
    forall i' | 0 <= i' < |tps| && tps[i'].tableName == configs[j].tableName
      ensures i' == i
    {
      assert TableKey(tps[i']) == TableKey(tps[i]);
    }
  }

  /** The length of the run of word characters at the start of s. */
  function WordRun(s: string): (n: nat)
    ensures n <= |s|
    ensures forall k :: 0 <= k < n ==> IsWordChar(s[k])
    ensures n < |s| ==> !IsWordChar(s[n])
  {
    if s == [] || !IsWordChar(s[0]) then 0 else 1 + WordRun(s[1..])
  }

  /** re.findall(r'\w+', s): the maximal runs of word characters, left to right. */
  function Tokens(s: string): (r: seq<string>)
    ensures forall k :: 0 <= k < |r| ==> r[k] != [] && forall c :: 0 <= c < |r[k]| ==> IsWordChar(r[k][c])
    decreases |s|
  {
    if s == [] then []
    else if !IsWordChar(s[0]) then Tokens(s[1..])
    else
      var n := WordRun(s);
      [s[..n]] + Tokens(s[n..])
  }

  function Concat(ss: seq<string>): string {
    if ss == [] then [] else ss[0] + Concat(ss[1..])
  }

  lemma WordRunFilter(s: string)
    ensures Filter(s, IsWordChar) == s[..WordRun(s)] + Filter(s[WordRun(s)..], IsWordChar)
  {
    var n := WordRun(s);
    assert s == s[..n] + s[n..];
    FilterAppend(s[..n], s[n..], IsWordChar);
    FilterAll(s[..n], IsWordChar);
  }

  /** The tokens, joined, are exactly the word characters of the text in order. */
  lemma {:induction false} TokensCoverWordChars(s: string)
    ensures Concat(Tokens(s)) == Filter(s, IsWordChar)
    decreases |s|
  {
    if s != [] {
      if !IsWordChar(s[0]) {
        TokensCoverWordChars(s[1..]);
      } else {
        var n := WordRun(s);
        TokensCoverWordChars(s[n..]);
        WordRunFilter(s);
        assert Tokens(s)[1..] == Tokens(s[n..]);
      }
    }
  }

  predicate LongerThanTwo(w: string) { |w| > 2 }

  /** _extract_keywords: the \w+ tokens longer than two characters, in query order. */
  function ExtractKeywords(query: string): (r: seq<string>)
    ensures forall k :: 0 <= k < |r| ==> |r[k]| > 2 && forall c :: 0 <= c < |r[k]| ==> IsWordChar(r[k][c])
    ensures forall k :: 0 <= k < |Tokens(query)| && |Tokens(query)[k]| > 2 ==> Tokens(query)[k] in r
  {
    var ts := Tokens(query);
    var r := Filter(ts, LongerThanTwo);
    FilterSub(ts, LongerThanTwo);
    assert forall k :: 0 <= k < |r| ==> r[k] in multiset(ts);
    forall k | 0 <= k < |ts| && |ts[k]| > 2 ensures ts[k] in r {
      FilterKeeps(ts, LongerThanTwo, k);
    }
    r
  }

  /** _infer_relationships: relationship inference is not implemented, whatever the configuration. */
  function InferRelationships(a: Analyzer, tables: set<string>): (r: seq<string>)
    ensures r == []
  {
    if !a.domainConfig.enableRelationshipInference then [] else []
  }

  /** The state of the first loop of analyze_query after the first k patterns. */
  ghost predicate BestSoFar(ql: string, ps: seq<QueryPattern>, k: nat, best: Option<QueryPattern>, bestConfidence: real,
                            bestIndex: int)
    requires k <= |ps|
  {
    && (best.None? ==> bestConfidence == 0.0 && forall j :: 0 <= j < k ==> PatternConfidence(ql, ps[j]) <= 0.0)
    && (best.Some? ==>
          && 0 <= bestIndex < k && best.value == ps[bestIndex]
          && bestConfidence == PatternConfidence(ql, ps[bestIndex]) && bestConfidence > 0.0
          && (forall j :: 0 <= j < bestIndex ==> PatternConfidence(ql, ps[j]) < bestConfidence)
          && (forall j :: bestIndex < j < k ==> PatternConfidence(ql, ps[j]) <= bestConfidence))
  }

  /** The first loop of analyze_query: keeps a pattern only when it scores strictly more. */
  method ChooseBestPattern(ql: string, ps: seq<QueryPattern>)
    returns (best: Option<QueryPattern>, bestConfidence: real, ghost bestIndex: int)
    ensures best.None? <==> forall j :: 0 <= j < |ps| ==> PatternConfidence(ql, ps[j]) <= 0.0
    ensures best.None? ==> bestConfidence == 0.0
    ensures best.Some? ==>
      IsBestPattern(ql, ps, bestIndex) && best.value == ps[bestIndex] && bestConfidence == PatternConfidence(ql, ps[bestIndex])
  {
    best := None;
    bestConfidence := 0.0;
    bestIndex := -1;
    var k := 0;
    while k < |ps|
      invariant 0 <= k <= |ps|
      invariant BestSoFar(ql, ps, k, best, bestConfidence, bestIndex)
    {
      best, bestConfidence, bestIndex := Consider(ql, ps, k, best, bestConfidence, bestIndex);
      k := k + 1;
    }
  }

  /** One pass of the loop: pattern k replaces the best one when its confidence is strictly higher. */
  method Consider(ql: string, ps: seq<QueryPattern>, k: nat, best0: Option<QueryPattern>, conf0: real, ghost index0: int)
    returns (best: Option<QueryPattern>, bestConfidence: real, ghost bestIndex: int)
    requires k < |ps| && BestSoFar(ql, ps, k, best0, conf0, index0)
    ensures BestSoFar(ql, ps, k + 1, best, bestConfidence, bestIndex)
  {
    var confidence := PatternConfidence(ql, ps[k]);
    if confidence > conf0 {
      return Some(ps[k]), confidence, k;
    }
    return best0, conf0, index0;
  }

  lemma PatternSetsStep(ql: string, tps: seq<TablePattern>, t: nat)
    requires t < |tps|
    ensures PatternSuggestions(ql, tps[..t + 1]) ==
      PatternSuggestions(ql, tps[..t]) + (if MatchesTablePattern(ql, tps[t]) then {tps[t].tableName} else {})
    ensures PatternExclusions(ql, tps[..t + 1]) ==
      PatternExclusions(ql, tps[..t]) +
      (if !MatchesTablePattern(ql, tps[t]) && ExcludedByPattern(ql, tps[t]) then {tps[t].tableName} else {})
  {
    var a, b := tps[..t + 1], tps[..t];
    assert forall i :: 0 <= i < t ==> a[i] == b[i];
    assert a[t] == tps[t];
  }

  /** The second loop of analyze_query: a matching table pattern suggests, else it may exclude. */
  method ApplyTablePatterns(ql: string, tps: seq<TablePattern>, suggested0: set<string>, excluded0: set<string>)
    returns (suggested: set<string>, excluded: set<string>)
    ensures suggested == suggested0 + PatternSuggestions(ql, tps)
    ensures excluded == excluded0 + PatternExclusions(ql, tps)
  {
    suggested, excluded := suggested0, excluded0;
    var t := 0;
    while t < |tps|
      invariant 0 <= t <= |tps|
      invariant suggested == suggested0 + PatternSuggestions(ql, tps[..t])
      invariant excluded == excluded0 + PatternExclusions(ql, tps[..t])
    {
      PatternSetsStep(ql, tps, t);
      if MatchesTablePattern(ql, tps[t]) {
        suggested := suggested + {tps[t].tableName};
      } else if ExcludedByPattern(ql, tps[t]) {
        excluded := excluded + {tps[t].tableName};
      }
      t := t + 1;
    }
    assert tps[..t] == tps;
  }

  /**
   * What analyze_query reports: the best query pattern (first highest positive
   * score) gives the type, confidence and its tables; matching table patterns
   * add suggestions and the non-matching ones whose exclusion terms are all
   * absent add exclusions.
   */
  ghost predicate Analysis(a: Analyzer, query: string, ctx: QueryContext) {
    var ql := ToLower(query);
    var ps := a.queryPatterns;
    && ctx.keywords == ExtractKeywords(ql)
    && ctx.requiredRelationships == []
    && 0.0 <= ctx.confidence <= 1.0
    && ((forall j :: 0 <= j < |ps| ==> PatternConfidence(ql, ps[j]) <= 0.0) ==>
        && ctx.queryType == "generic" && ctx.confidence == 0.0
        && ctx.suggestedTables == PatternSuggestions(ql, a.tablePatterns)
        && ctx.excludedTables == PatternExclusions(ql, a.tablePatterns))
    && (!(forall j :: 0 <= j < |ps| ==> PatternConfidence(ql, ps[j]) <= 0.0) ==>
        exists i ::
          && IsBestPattern(ql, ps, i)
          && ctx.queryType == ps[i].patternId
          && ctx.confidence == PatternConfidence(ql, ps[i])
          && ctx.suggestedTables == SetOf(ps[i].requiredTables) + SetOf(ps[i].optionalTables)
             + PatternSuggestions(ql, a.tablePatterns)
          && ctx.excludedTables == SetOf(ps[i].excludedTables) + PatternExclusions(ql, a.tablePatterns))
  }

  method AnalyzeQuery(a: Analyzer, query: string) returns (ctx: QueryContext)
    requires WellFormed(a)
    ensures Analysis(a, query, ctx)
  {
    var ql := ToLower(query);
    var ps := a.queryPatterns;
    var best, bestConfidence, bestIndex := ChooseBestPattern(ql, ps);

    var suggested: set<string> := {};
    var excluded: set<string> := {};
    if best.Some? {
      suggested := suggested + SetOf(best.value.requiredTables);
      suggested := suggested + SetOf(best.value.optionalTables);
      excluded := excluded + SetOf(best.value.excludedTables);
    }
    ghost var s0, e0 := suggested, excluded;
    suggested, excluded := ApplyTablePatterns(ql, a.tablePatterns, suggested, excluded);
    if best.Some? {
      var i := bestIndex;
      assert 0.0 < bestConfidence <= 1.0;
      assert s0 == SetOf(ps[i].requiredTables) + SetOf(ps[i].optionalTables);
    }

    ctx := QueryContext(
      if best.Some? then best.value.patternId else "generic",
      ExtractKeywords(ql),
      bestConfidence,
      suggested,
      excluded,
      InferRelationships(a, suggested));
  }

  /**
   * Under the default configuration every query is 'generic' with confidence
   * 0 and no suggested or excluded tables.
   */
  method AnalyzeWithDefaults(query: string) returns (ctx: QueryContext)
    ensures ctx.queryType == "generic" && ctx.confidence == 0.0
    ensures ctx.suggestedTables == {} && ctx.excludedTables == {}
    ensures ctx.requiredRelationships == []
  {
    ctx := AnalyzeQuery(DefaultAnalyzer(), query);
  }
}
