/**
 * sql_generator/core/generator.py: the SQLResult container, the confidence
 * of a set of search results, the tables named by search results, and the
 * check that a question is natural language rather than SQL.
 */
module Generator {
  import opened Wrappers
  import opened Strings
  import opened Sequences
  import opened Values

  // ---------------------------------------------------------------------
  // SQLResult
  // ---------------------------------------------------------------------

  datatype SQLResult = SQLResult(sql: string, confidence: real, metadata: Metadata, prompt: Option<string>)

  /**
   * SQLResult(sql, confidence, metadata, prompt); None stands for an
   * omitted confidence and for an omitted or None metadata.
   */
  function NewSQLResult(sql: string, confidence: Option<real>, metadata: Option<Metadata>, prompt: Option<string>): SQLResult {
    SQLResult(sql, confidence.GetOr(0.0), if metadata.Some? && metadata.value != map[] then metadata.value else map[], prompt)
  }

  /** Confidence defaults to 0.0 and metadata to an empty dict; given values are kept. */
  lemma SQLResultDefaults(sql: string, confidence: Option<real>, metadata: Option<Metadata>, prompt: Option<string>)
    ensures var r := NewSQLResult(sql, confidence, metadata, prompt);
      && r.sql == sql && r.prompt == prompt
      && r.confidence == (if confidence.Some? then confidence.value else 0.0)
      && r.metadata == (if metadata.Some? then metadata.value else map[])
  {
  }

  // ---------------------------------------------------------------------
  // _calculate_confidence
  // ---------------------------------------------------------------------

  const TypeError: string := "TypeError"

  /** result.get('score', 0.0) as a number that sum() accepts; a TypeError for anything else. */
  function ScoreOf(result: Metadata): Result<real> {
    if "score" !in result then Ok(0.0)
    else match result["score"]
      case Real(x) => Ok(x)
      case Int(i) => Ok(i as real)
      case Bool(b) => Ok(if b then 1.0 else 0.0)
      case _ => Err(TypeError)
  }

  /** sum(scores), left to right. */
  function ScoreSum(results: seq<Metadata>): Result<real> {
    if results == [] then Ok(0.0)
    else match ScoreOf(results[0])
      case Err(e) => Err(e)
      case Ok(x) =>
        (match ScoreSum(results[1..])
         case Err(e) => Err(e)
         case Ok(rest) => Ok(x + rest))
  }

  /** _calculate_confidence: the mean score of the first five results, 0.0 for none. */
  function Confidence(results: seq<Metadata>): Result<real> {
    if results == [] then Ok(0.0)
    else
      var top := PyPrefix(results, 5);
      match ScoreSum(top)
      case Err(e) => Err(e)
      case Ok(total) => Ok(total / (|top| as real))
  }

  /** Only the first five results are looked at. */
  lemma ConfidenceFirstFive(results: seq<Metadata>)
    ensures Confidence(results) == Confidence(PyPrefix(results, 5))
  {
    var top := PyPrefix(results, 5);
    assert PyPrefix(top, 5) == top;
  }

  /** Scores between 0 and 1 give a confidence between 0 and 1. */
  lemma {:induction false} ScoreSumBounds(results: seq<Metadata>)
    requires forall k :: 0 <= k < |results| ==> ScoreOf(results[k]).Ok? && 0.0 <= ScoreOf(results[k]).value <= 1.0
    ensures ScoreSum(results).Ok? && 0.0 <= ScoreSum(results).value <= |results| as real
  {
    if results != [] {
      assert ScoreOf(results[0]).Ok?;
      ScoreSumBounds(results[1..]);
    }
  }

  /** sum() raises exactly when some looked-at score is not a number. */
  lemma {:induction false} ScoreSumOkIff(results: seq<Metadata>)
    ensures ScoreSum(results).Ok? <==> forall k :: 0 <= k < |results| ==> ScoreOf(results[k]).Ok?
  {
    if results != [] {
      ScoreSumOkIff(results[1..]);
      assert forall k :: 1 <= k < |results| ==> results[k] == results[1..][k - 1];
    }
  }

  lemma ConfidenceBounds(results: seq<Metadata>)
    requires forall k :: 0 <= k < |results| ==> ScoreOf(results[k]).Ok? && 0.0 <= ScoreOf(results[k]).value <= 1.0
    ensures Confidence(results).Ok? && 0.0 <= Confidence(results).value <= 1.0
  {
    if results != [] {
      var top := PyPrefix(results, 5);
      ScoreSumBounds(top);
      var total := ScoreSum(top).value;
      assert 0.0 <= total <= |top| as real;
      assert total / (|top| as real) <= 1.0;
    }
  }

  /** Results without a score count as 0.0. */
  lemma {:induction false} UnscoredSumZero(results: seq<Metadata>)
    requires forall k :: 0 <= k < |results| ==> "score" !in results[k]
    ensures ScoreSum(results) == Ok(0.0)
  {
    if results != [] {
      UnscoredSumZero(results[1..]);
    }
  }

  lemma UnscoredConfidenceZero(results: seq<Metadata>)
    requires forall k :: 0 <= k < |results| ==> "score" !in results[k]
    ensures Confidence(results) == Ok(0.0)
  {
    if results != [] {
      UnscoredSumZero(PyPrefix(results, 5));
    }
  }

  // ---------------------------------------------------------------------
  // _extract_tables_from_results
  // ---------------------------------------------------------------------

  /** The metadata keys tried, in order. */
  const TableKeys: seq<string> := ["table_name", "table", "name"]

  /** Values a Python set accepts: lists and dicts are unhashable. */
  predicate Hashable(v: Value) {
    !(v.List? || v.Object?)
  }

  /** tables.add(v) */
  function Add(tables: set<Value>, v: Value): Result<set<Value>> {
    if Hashable(v) then Ok(tables + {v}) else Err(TypeError)
  }

  /**
   * The inner loop over `keys` on a truthy metadata value: the first key
   * present with a truthy value, in a dict. On a string `key in metadata`
   * is a substring test and on a list a membership test; when it succeeds,
   * metadata[key] raises TypeError. Other values cannot be searched at all.
   */
  function Pick(metadata: Value, keys: seq<string>): Result<Option<Value>> {
    if keys == [] then Ok(None)
    else match metadata
      case Object(f) => if keys[0] in f && Truthy(f[keys[0]]) then Ok(Some(f[keys[0]])) else Pick(metadata, keys[1..])
      case Str(s) => if Contains(s, keys[0]) then Err(TypeError) else Pick(metadata, keys[1..])
      case List(items) => if Str(keys[0]) in items then Err(TypeError) else Pick(metadata, keys[1..])
      case _ => Err(TypeError)
  }

  /** result.get('metadata', {}) */
  function MetadataOf(result: Metadata): Value {
    if "metadata" in result then result["metadata"] else Object(map[])
  }

  /** What the metadata of one result adds: nothing when it is falsy. */
  function MetadataTable(result: Metadata): Result<Option<Value>> {
    if Truthy(MetadataOf(result)) then Pick(MetadataOf(result), TableKeys) else Ok(None)
  }

  /** One pass of the outer loop. */
  function AddResult(tables: set<Value>, result: Metadata): Result<set<Value>> {
    var withTop := if "table" in result then Add(tables, result["table"]) else Ok(tables);
    match withTop
    case Err(e) => Err(e)
    case Ok(t) =>
      (match MetadataTable(result)
       case Err(e) => Err(e)
       case Ok(None) => Ok(t)
       case Ok(Some(v)) => Add(t, v))
  }

  /** The set built from the results, or the first error. */
  function TablesOf(results: seq<Metadata>): Result<set<Value>> {
    if results == [] then Ok({})
    else match TablesOf(results[..|results| - 1])
      case Err(e) => Err(e)
      case Ok(tables) => AddResult(tables, results[|results| - 1])
  }

  /** A value one result contributes: its top-level 'table', or the table found in its metadata. */
  predicate Contributes(result: Metadata, v: Value) {
    ("table" in result && result["table"] == v) || MetadataTable(result) == Ok(Some(v))
  }

  lemma AddResultMembers(tables: set<Value>, result: Metadata, v: Value)
    requires AddResult(tables, result).Ok?
    ensures v in AddResult(tables, result).value <==> v in tables || Contributes(result, v)
  {
  }

  /** Without an error, the tables are exactly the values some result contributes. */
  lemma {:induction false} TablesOfMembers(results: seq<Metadata>, v: Value)
    requires TablesOf(results).Ok?
    ensures v in TablesOf(results).value <==> exists k :: 0 <= k < |results| && Contributes(results[k], v)
  {
    if results != [] {
      var init := results[..|results| - 1];
      var last := results[|results| - 1];
      TablesOfMembers(init, v);
      AddResultMembers(TablesOf(init).value, last, v);
      if exists k :: 0 <= k < |results| && Contributes(results[k], v) {
        var k :| 0 <= k < |results| && Contributes(results[k], v);
        if k < |results| - 1 {
          assert init[k] == results[k];
        }
      }
      if exists k :: 0 <= k < |init| && Contributes(init[k], v) {
        var k :| 0 <= k < |init| && Contributes(init[k], v);
        assert results[k] == init[k];
      }
    }
  }

  /** An error stops the loop: later results do not matter. */
  lemma {:induction false} TablesOfErrSticks(results: seq<Metadata>, n: nat)
    requires n <= |results| && TablesOf(results[..n]).Err?
    ensures TablesOf(results) == TablesOf(results[..n])
    decreases |results| - n
  {
    if n < |results| {
      assert results[..n + 1][..n] == results[..n];
      TablesOfErrSticks(results, n + 1);
    } else {
      assert results[..n] == results;
    }
  }

  /** The inner loop of _extract_tables_from_results. */
  method PickTable(metadata: Value, keys: seq<string>) returns (r: Result<Option<Value>>)
    ensures r == Pick(metadata, keys)
  {
    var k := 0;
    while k < |keys|
      invariant 0 <= k <= |keys|
      invariant Pick(metadata, keys) == Pick(metadata, keys[k..])
    {
      assert keys[k..][0] == keys[k] && keys[k..][1..] == keys[k + 1..];
      var key := keys[k];
      match metadata {
        case Object(f) =>
          if key in f && Truthy(f[key]) {
            return Ok(Some(f[key]));
          }
        case Str(s) =>
          if Contains(s, key) {
            return Err(TypeError);
          }
        case List(items) =>
          if Str(key) in items {
            return Err(TypeError);
          }
        case _ =>
          return Err(TypeError);
      }
      k := k + 1;
    }
    return Ok(None);
  }

  /** list(tables): the set's elements, once each, in an order the model leaves open. */
  method ListOf(tables: set<Value>) returns (r: seq<Value>)
    ensures Distinct(r) && SetOf(r) == tables
  {
    r := [];
    var rest := tables;
    while rest != {}
      invariant Distinct(r) && SetOf(r) + rest == tables && SetOf(r) !! rest
      decreases |rest|
    {
      var x :| x in rest;
      r := r + [x];
      rest := rest - {x};
    }
  }

  method ExtractTablesFromResults(results: seq<Metadata>) returns (r: Result<seq<Value>>)
    ensures TablesOf(results).Err? ==> r == Err(TablesOf(results).message)
    ensures TablesOf(results).Ok? ==> r.Ok? && Distinct(r.value) && SetOf(r.value) == TablesOf(results).value
  {
    var tables: set<Value> := {};
    for i := 0 to |results|
      invariant TablesOf(results[..i]) == Ok(tables)
    {
      assert results[..i + 1][..i] == results[..i];
      var result := results[i];
      if "table" in result {
        if !Hashable(result["table"]) {
          TablesOfErrSticks(results, i + 1);
          return Err(TypeError);
        }
        tables := tables + {result["table"]};
      }
      var metadata := if "metadata" in result then result["metadata"] else Object(map[]);
      if Truthy(metadata) {
        var picked := PickTable(metadata, TableKeys);
        match picked {
          case Err(e) =>
            TablesOfErrSticks(results, i + 1);
            return Err(e);
          case Ok(found) =>
            if found.Some? {
              if !Hashable(found.value) {
                TablesOfErrSticks(results, i + 1);
                return Err(TypeError);
              }
              tables := tables + {found.value};
            }
        }
      }
    }
    assert results[..|results|] == results;
    var names := ListOf(tables);
    return Ok(names);
  }

  // ---------------------------------------------------------------------
  // validate_query
  // ---------------------------------------------------------------------

  const SqlKeywords: seq<string> := ["SELECT", "FROM", "WHERE", "JOIN", "GROUP BY", "ORDER BY"]

  /** sum(1 for keyword in words if keyword in text) */
  function KeywordCount(words: seq<string>, text: string): (n: nat)
    ensures n <= |words|
  {
    if words == [] then 0
    else (if Contains(text, words[0]) then 1 else 0) + KeywordCount(words[1..], text)
  }

  /** validate_query */
  function ValidQuery(query: string): bool {
    if query == [] || Strip(query) == [] then false
    else KeywordCount(SqlKeywords, ToUpper(query)) < 3
  }

  /** The test `keyword in text` as a filter predicate. */
  function InText(text: string): string -> bool {
    w => Contains(text, w)
  }

  /** The keyword count is the number of listed words the text contains. */
  lemma {:induction false} KeywordCountFilter(words: seq<string>, text: string)
    ensures KeywordCount(words, text) == |Filter(words, InText(text))|
  {
    if words != [] {
      KeywordCountFilter(words[1..], text);
    }
  }

  /** An empty or whitespace-only question is rejected. */
  lemma BlankQueryInvalid(query: string)
    requires Strip(query) == []
    ensures !ValidQuery(query)
  {
  }

  /** A non-blank question is accepted iff fewer than three keywords occur in its upper-case form. */
  lemma ValidQueryIff(query: string)
    requires Strip(query) != []
    ensures ValidQuery(query) <==> |Filter(SqlKeywords, InText(ToUpper(query)))| < 3
  {
    KeywordCountFilter(SqlKeywords, ToUpper(query));
  }

  /** Three of the words occurring already reach the limit. */
  lemma {:induction false} CountThree(words: seq<string>, text: string, i: nat, j: nat, k: nat)
    requires i < j < k < |words|
    requires Contains(text, words[i]) && Contains(text, words[j]) && Contains(text, words[k])
    ensures KeywordCount(words, text) >= 3
  {
    if i > 0 {
      CountThree(words[1..], text, i - 1, j - 1, k - 1);
    } else {
      CountTwo(words[1..], text, j - 1, k - 1);
    }
  }

  lemma {:induction false} CountTwo(words: seq<string>, text: string, j: nat, k: nat)
    requires j < k < |words| && Contains(text, words[j]) && Contains(text, words[k])
    ensures KeywordCount(words, text) >= 2
  {
    if j > 0 {
      CountTwo(words[1..], text, j - 1, k - 1);
    } else {
      CountOne(words[1..], text, k - 1);
    }
  }

  lemma {:induction false} CountOne(words: seq<string>, text: string, k: nat)
    requires k < |words| && Contains(text, words[k])
    ensures KeywordCount(words, text) >= 1
  {
    if k > 0 {
      CountOne(words[1..], text, k - 1);
    }
  }

  /** A question written as SELECT ... FROM ... WHERE is rejected. */
  lemma SelectFromWhereInvalid(query: string)
    requires Contains(ToUpper(query), "SELECT") && Contains(ToUpper(query), "FROM") && Contains(ToUpper(query), "WHERE")
    ensures !ValidQuery(query)
  {
    CountThree(SqlKeywords, ToUpper(query), 0, 1, 2);
  }

  /** A non-blank question with none of the keywords is accepted. */
  lemma {:induction false} NoKeywordsValid(query: string)
    requires Strip(query) != []
    requires forall k :: 0 <= k < |SqlKeywords| ==> !Contains(ToUpper(query), SqlKeywords[k])
    ensures ValidQuery(query)
  {
    CountNone(SqlKeywords, ToUpper(query));
  }

  lemma {:induction false} CountNone(words: seq<string>, text: string)
    requires forall k :: 0 <= k < |words| ==> !Contains(text, words[k])
    ensures KeywordCount(words, text) == 0
  {
    if words != [] {
      CountNone(words[1..], text);
    }
  }
}
