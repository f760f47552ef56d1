// Post-processing of semantic-search hits (schema_searcher.py): cosine
// distances become similarity scores, a threshold drops weak hits, ranks
// record positions, and the combined results are sorted and cut.

module SchemaSearch {
  import opened Wrappers
  import opened Sequences
  import opened Values

  /**
   * What one collection query returned: each key maps to a list with one
   * inner list per query embedding; an absent key is None.
   */
  datatype RawResults = RawResults(
    documents: Option<seq<seq<string>>>,
    metadatas: Option<seq<seq<Option<Metadata>>>>,
    distances: Option<seq<seq<Option<real>>>>)

  /** One processed hit; score and distance are present iff scores were requested. */
  datatype SearchResult = SearchResult(
    content: string,
    metadata: Metadata,
    collectionType: string,
    rank: nat,
    score: Option<real>,
    distance: Option<Option<real>>)

  /** One position of zip(documents, metadatas, distances). */
  datatype Row = Row(doc: string, metadata: Option<Metadata>, distance: Option<real>)

  /** 1 - distance with negatives clamped to 0 (values above 1 stay); a missing distance scores 0. */
  function DistanceScore(d: Option<real>): (r: real)
    ensures r >= 0.0
    ensures d.Some? ==> r >= 1.0 - d.value && (r == 0.0 || r == 1.0 - d.value)
    ensures d.None? ==> r == 0.0
  {
    if d.None? then 0.0
    else if 1.0 - d.value < 0.0 then 0.0
    else 1.0 - d.value
  }

  function Min(a: nat, b: nat): nat {
    if a <= b then a else b
  }

  /** zip() stops at the shortest list. */
  function Zip(docs: seq<string>, metas: seq<Option<Metadata>>, dists: seq<Option<real>>): (r: seq<Row>)
    ensures |r| == Min(|docs|, Min(|metas|, |dists|))
    ensures forall i :: 0 <= i < |r| ==> r[i] == Row(docs[i], metas[i], dists[i])
  {
    seq(Min(|docs|, Min(|metas|, |dists|)), i requires 0 <= i < Min(|docs|, Min(|metas|, |dists|)) =>
      Row(docs[i], metas[i], dists[i]))
  }

  /** No documents at all: the key is missing, its list is empty, or the first inner list is empty. */
  predicate NoDocuments(raw: RawResults) {
    raw.documents.None? || raw.documents.value == [] || raw.documents.value[0] == []
  }

  /**
   * The zipped rows of a result with documents. A missing metadatas key
   * defaults to one {} per document and a missing distances key to one 0
   * per document; a present but empty outer list raises IndexError.
   */
  function Rows(raw: RawResults): (r: Result<seq<Row>>)
    requires !NoDocuments(raw)
    ensures r.Err? <==> (raw.metadatas.Some? && raw.metadatas.value == []) ||
                        (raw.distances.Some? && raw.distances.value == [])
  {
    var docs := raw.documents.value[0];
    if (raw.metadatas.Some? && raw.metadatas.value == []) || (raw.distances.Some? && raw.distances.value == [])
    then Err("IndexError: list index out of range")
    else
      var metas := if raw.metadatas.None? then seq(|docs|, _ => Some(map[])) else raw.metadatas.value[0];
      var dists := if raw.distances.None? then seq(|docs|, _ => Some(0.0)) else raw.distances.value[0];
      Ok(Zip(docs, metas, dists))
  }

  /** The threshold test: a hit is dropped when a threshold is set and its score is below it. */
  predicate Passes(row: Row, threshold: Option<real>) {
    threshold.None? || DistanceScore(row.distance) >= threshold.value
  }

  /** The record built for the row at 1-based position rank. */
  function MakeResult(row: Row, collectionType: string, rank: nat, includeScores: bool): SearchResult {
    SearchResult(row.doc, row.metadata.GetOr(map[]), collectionType, rank,
                 if includeScores then Some(DistanceScore(row.distance)) else None,
                 if includeScores then Some(row.distance) else None)
  }

  /** The records of the first n rows that pass the threshold, in row order. */
  function Kept(rows: seq<Row>, n: nat, collectionType: string, includeScores: bool, threshold: Option<real>): seq<SearchResult>
    requires n <= |rows|
  {
    if n == 0 then []
    else
      var prev := Kept(rows, n - 1, collectionType, includeScores, threshold);
      if Passes(rows[n - 1], threshold) then prev + [MakeResult(rows[n - 1], collectionType, n, includeScores)]
      else prev
  }

  /** The whole of _process_collection_results: nothing without documents, else the kept rows. */
  function Processed(raw: RawResults, collectionType: string, includeScores: bool, threshold: Option<real>): Result<seq<SearchResult>> {
    if NoDocuments(raw) then Ok([])
    else
      match Rows(raw)
      case Err(e) => Err(e)
      case Ok(rows) => Ok(Kept(rows, |rows|, collectionType, includeScores, threshold))
  }

  method ProcessCollectionResults(raw: RawResults, collectionType: string, includeScores: bool, threshold: Option<real>)
    returns (r: Result<seq<SearchResult>>)
    ensures r == Processed(raw, collectionType, includeScores, threshold)
  {
    if NoDocuments(raw) {
      return Ok([]);
    }
    var rows := Rows(raw);
    if rows.Err? {
      return Err(rows.message);
    }
    var processed: seq<SearchResult> := [];
    var i := 0;
    while i < |rows.value|
      invariant 0 <= i <= |rows.value|
      invariant processed == Kept(rows.value, i, collectionType, includeScores, threshold)
    {
      processed := KeepRow(processed, rows.value, i, collectionType, includeScores, threshold);
      i := i + 1;
    }
    r := Ok(processed);
  }

  /** One pass of the loop: score the row, skip it below the threshold, else append its record. */
  method KeepRow(processed0: seq<SearchResult>, rows: seq<Row>, i: nat, collectionType: string, includeScores: bool,
                 threshold: Option<real>)
    returns (processed: seq<SearchResult>)
    requires i < |rows| && processed0 == Kept(rows, i, collectionType, includeScores, threshold)
    ensures processed == Kept(rows, i + 1, collectionType, includeScores, threshold)
  {
    var row := rows[i];
    var score := if row.distance.Some? then (if 1.0 - row.distance.value < 0.0 then 0.0 else 1.0 - row.distance.value) else 0.0;
    KeptStep(rows, i + 1, collectionType, includeScores, threshold);
    if threshold.Some? && score < threshold.value {
      return processed0;
    }
    processed := processed0 + [MakeResult(row, collectionType, i + 1, includeScores)];
  }

  lemma KeptStep(rows: seq<Row>, n: nat, collectionType: string, includeScores: bool, threshold: Option<real>)
    requires 0 < n <= |rows|
    ensures Kept(rows, n, collectionType, includeScores, threshold) ==
      var prev := Kept(rows, n - 1, collectionType, includeScores, threshold);
      if Passes(rows[n - 1], threshold) then prev + [MakeResult(rows[n - 1], collectionType, n, includeScores)] else prev
  {
  }

  /** Each record is the record of the passing row, among the first n, that its rank names. */
  predicate RecordsOfRows(out: seq<SearchResult>, rows: seq<Row>, n: nat, collectionType: string, includeScores: bool,
                          threshold: Option<real>)
    requires n <= |rows|
  {
    forall k :: 0 <= k < |out| ==>
      1 <= out[k].rank <= n && Passes(rows[out[k].rank - 1], threshold)
      && out[k] == MakeResult(rows[out[k].rank - 1], collectionType, out[k].rank, includeScores)
  }

  /** Every row among the first n that passes the threshold has a record. */
  predicate KeepsPassing(out: seq<SearchResult>, rows: seq<Row>, n: nat, threshold: Option<real>)
    requires n <= |rows|
  {
    forall p :: 0 <= p < n && Passes(rows[p], threshold) ==> exists k :: 0 <= k < |out| && out[k].rank == p + 1
  }

  /** Each kept record is the record of the passing row its rank names. */
  lemma {:induction false} KeptSound(rows: seq<Row>, n: nat, collectionType: string, includeScores: bool, threshold: Option<real>)
    requires n <= |rows|
    ensures RecordsOfRows(Kept(rows, n, collectionType, includeScores, threshold), rows, n, collectionType, includeScores, threshold)
  {
    if n > 0 {
      KeptSound(rows, n - 1, collectionType, includeScores, threshold);
      KeptStep(rows, n, collectionType, includeScores, threshold);
    }
  }

  /** Ranks strictly increase along the kept records, even where rows were dropped. */
  lemma {:induction false} KeptRanks(rows: seq<Row>, n: nat, collectionType: string, includeScores: bool, threshold: Option<real>)
    requires n <= |rows|
    ensures var out := Kept(rows, n, collectionType, includeScores, threshold);
      && (forall k :: 0 <= k < |out| ==> out[k].rank <= n)
      && (forall i, j :: 0 <= i < j < |out| ==> out[i].rank < out[j].rank)
  {
    if n > 0 {
      KeptRanks(rows, n - 1, collectionType, includeScores, threshold);
      KeptStep(rows, n, collectionType, includeScores, threshold);
    }
  }

  /** Every row that passes the threshold is kept. */
  lemma {:induction false} KeptComplete(rows: seq<Row>, n: nat, collectionType: string, includeScores: bool, threshold: Option<real>)
    requires n <= |rows|
    ensures KeepsPassing(Kept(rows, n, collectionType, includeScores, threshold), rows, n, threshold)
  {
    if n > 0 {
      KeptComplete(rows, n - 1, collectionType, includeScores, threshold);
      KeptStep(rows, n, collectionType, includeScores, threshold);
      var prev := Kept(rows, n - 1, collectionType, includeScores, threshold);
      var out := Kept(rows, n, collectionType, includeScores, threshold);
      forall p | 0 <= p < n && Passes(rows[p], threshold) ensures exists k :: 0 <= k < |out| && out[k].rank == p + 1 {
        if p == n - 1 {
          assert out[|prev|].rank == p + 1;
        } else {
          var k :| 0 <= k < |prev| && prev[k].rank == p + 1;
          assert out[k] == prev[k];
        }
      }
    }
  }

  /**
   * Scores are never negative and never below a set threshold; score and
   * distance are present exactly when requested; ranks strictly increase.
   */
  lemma ProcessedProperties(raw: RawResults, collectionType: string, includeScores: bool, threshold: Option<real>)
    ensures NoDocuments(raw) ==> Processed(raw, collectionType, includeScores, threshold) == Ok([])
    ensures var r := Processed(raw, collectionType, includeScores, threshold);
      r.Ok? ==>
        && (forall k :: 0 <= k < |r.value| ==> r.value[k].collectionType == collectionType && r.value[k].rank >= 1)
        && (forall k :: 0 <= k < |r.value| ==> (r.value[k].score.Some? <==> includeScores))
        && (forall k :: 0 <= k < |r.value| ==> (r.value[k].distance.Some? <==> includeScores))
        && (forall k :: 0 <= k < |r.value| && r.value[k].score.Some? ==>
              r.value[k].score.value >= 0.0 && (threshold.Some? ==> r.value[k].score.value >= threshold.value))
        && (forall i, j :: 0 <= i < j < |r.value| ==> r.value[i].rank < r.value[j].rank)
  {
    if !NoDocuments(raw) && Rows(raw).Ok? {
      KeptFacts(Rows(raw).value, collectionType, includeScores, threshold);
      assert Processed(raw, collectionType, includeScores, threshold)
          == Ok(Kept(Rows(raw).value, |Rows(raw).value|, collectionType, includeScores, threshold));
    }
  }

  /**
   * With documents and well-formed lists, the output is exactly the records
   * of the rows that pass the threshold, each tagged with its 1-based position.
   */
  lemma ProcessedRows(raw: RawResults, collectionType: string, includeScores: bool, threshold: Option<real>)
    requires !NoDocuments(raw) && Rows(raw).Ok?
    ensures Processed(raw, collectionType, includeScores, threshold).Ok?
    ensures RecordsOfRows(Processed(raw, collectionType, includeScores, threshold).value, Rows(raw).value,
                          |Rows(raw).value|, collectionType, includeScores, threshold)
    ensures KeepsPassing(Processed(raw, collectionType, includeScores, threshold).value, Rows(raw).value,
                         |Rows(raw).value|, threshold)
  {
    var rows := Rows(raw).value;
    var out := Kept(rows, |rows|, collectionType, includeScores, threshold);
    assert Processed(raw, collectionType, includeScores, threshold) == Ok(out);
    KeptSound(rows, |rows|, collectionType, includeScores, threshold);
    KeptComplete(rows, |rows|, collectionType, includeScores, threshold);
  }

  lemma KeptFacts(rows: seq<Row>, collectionType: string, includeScores: bool, threshold: Option<real>)
    ensures var out := Kept(rows, |rows|, collectionType, includeScores, threshold);
      && (forall k :: 0 <= k < |out| ==> out[k].collectionType == collectionType && out[k].rank >= 1)
      && (forall k :: 0 <= k < |out| ==> (out[k].score.Some? <==> includeScores))
      && (forall k :: 0 <= k < |out| ==> (out[k].distance.Some? <==> includeScores))
      && (forall k :: 0 <= k < |out| && out[k].score.Some? ==>
            out[k].score.value >= 0.0 && (threshold.Some? ==> out[k].score.value >= threshold.value))
      && (forall i, j :: 0 <= i < j < |out| ==> out[i].rank < out[j].rank)
  {
    KeptSound(rows, |rows|, collectionType, includeScores, threshold);
    KeptRanks(rows, |rows|, collectionType, includeScores, threshold);
  }

  // ---------------------------------------------------------------------
  // The tail of search: gather, sort by score, cut to n_results
  // ---------------------------------------------------------------------

  /** The collections searched when none are named. */
  const DefaultCollections: seq<string> := ["schema_tables", "schema_columns"]

  /** x.get('score', 0) */
  function ScoreKey(r: SearchResult): real {
    r.score.GetOr(0.0)
  }

  /**
   * all_results after the loop: for each collection in order, its processed
   * hits; a collection that is missing or whose processing raises adds nothing.
   */
  function Gathered(store: map<string, RawResults>, types: seq<string>, includeScores: bool, threshold: Option<real>): seq<SearchResult> {
    if types == [] then []
    else
      var prev := Gathered(store, types[..|types| - 1], includeScores, threshold);
      var t := types[|types| - 1];
      if t !in store then prev
      else match Processed(store[t], t, includeScores, threshold)
        case Err(_) => prev
        case Ok(hits) => prev + hits
  }

  /** Sort by score, highest first (stable), when scores are present; then all_results[:n_results]. */
  function Ranked(all: seq<SearchResult>, nResults: int, includeScores: bool): seq<SearchResult> {
    PyPrefix(if includeScores then SortDesc(all, ScoreKey) else all, nResults)
  }

  /**
   * search with the collection store standing for ChromaDB: each present
   * collection's raw query result is processed and appended, and the whole
   * list is ranked.
   */
  method Search(store: map<string, RawResults>, nResults: int, collectionTypes: Option<seq<string>>,
                includeScores: bool, threshold: Option<real>)
    returns (r: seq<SearchResult>)
    ensures r == Ranked(Gathered(store, collectionTypes.GetOr(DefaultCollections), includeScores, threshold), nResults, includeScores)
  {
    var types := if collectionTypes.None? then DefaultCollections else collectionTypes.value;
    var all: seq<SearchResult> := [];
    var i := 0;
    while i < |types|
      invariant 0 <= i <= |types|
      invariant all == Gathered(store, types[..i], includeScores, threshold)
    {
      all := Gather(store, all, types, i, includeScores, threshold);
      i := i + 1;
    }
    assert types[..i] == types;
    if includeScores {
      all := SortDesc(all, ScoreKey);
    }
    r := PyPrefix(all, nResults);
  }

  /** One pass of the loop: append the processed hits of a present collection whose processing succeeds. */
  method Gather(store: map<string, RawResults>, all0: seq<SearchResult>, types: seq<string>, i: nat,
                includeScores: bool, threshold: Option<real>)
    returns (all: seq<SearchResult>)
    requires i < |types| && all0 == Gathered(store, types[..i], includeScores, threshold)
    ensures all == Gathered(store, types[..i + 1], includeScores, threshold)
  {
    var t := types[i];
    assert types[..i + 1][..i] == types[..i];
    all := all0;
    if t in store {
      var processed := ProcessCollectionResults(store[t], t, includeScores, threshold);
      if processed.Ok? {
        all := all0 + processed.value;
      }
    }
  }

  /**
   * The ranked list has at most n_results hits (for a non-negative n), all
   * gathered ones, sorted by score when scores are included and in gathering
   * order otherwise.
   */
  lemma RankedProperties(all: seq<SearchResult>, nResults: int, includeScores: bool)
    ensures var r := Ranked(all, nResults, includeScores);
      && (0 <= nResults ==> |r| <= nResults)
      && (0 <= nResults <= |all| ==> |r| == nResults)
      && multiset(r) <= multiset(all)
      && (includeScores ==> SortedDesc(r, ScoreKey))
      && (!includeScores ==> r == all[..|r|])
  {
    var sorted := if includeScores then SortDesc(all, ScoreKey) else all;
    var r := PyPrefix(sorted, nResults);
    assert sorted == r + sorted[|r|..];
    assert multiset(sorted) == multiset(r) + multiset(sorted[|r|..]);
    if includeScores {
      PrefixSortedDesc(sorted, |r|, ScoreKey);
    }
  }

  /** Every gathered hit comes from a present collection whose processing succeeded, and carries its name. */
  lemma {:induction false} GatheredFrom(store: map<string, RawResults>, types: seq<string>, includeScores: bool,
                                        threshold: Option<real>, x: SearchResult)
    requires x in Gathered(store, types, includeScores, threshold)
    ensures x.collectionType in types && x.collectionType in store
    ensures var p := Processed(store[x.collectionType], x.collectionType, includeScores, threshold); p.Ok? && x in p.value
  {
    var init := types[..|types| - 1];
    var t := types[|types| - 1];
    var prev := Gathered(store, init, includeScores, threshold);
    if x in prev {
      GatheredFrom(store, init, includeScores, threshold, x);
      assert x.collectionType in types by {
        var k :| 0 <= k < |init| && init[k] == x.collectionType;
        assert types[k] == x.collectionType;
      }
    } else {
      var p := Processed(store[t], t, includeScores, threshold);
      assert t in store && p.Ok? && x in p.value;
      var k :| 0 <= k < |p.value| && p.value[k] == x;
      ProcessedProperties(store[t], t, includeScores, threshold);
    }
  }
}
