// The confidence normaliser, result ranking and fallback table selector of
// the command-line entry point (sql_generator/main.py).

module ScoreRanking {
  import opened Wrappers
  import opened Sequences
  import opened Dicts
  import opened Hits

  /**
   * normalize_score: a raw similarity score mapped onto a confidence
   * percentage by fixed bands (0.2 -> 10, 0.4 -> 40, 0.6 -> 70, 0.8 -> 90,
   * 1.0 -> 100), linear inside each band.
   */
  function NormalizeScore(score: real): (r: real)
    ensures 0.0 <= r <= 100.0
    ensures score <= 0.0 ==> r == 0.0
    ensures score > 1.0 ==> r == 100.0
  {
    var s := if score < 0.0 then 0.0 else score;
    if s >= 0.8 then
      if s > 1.0 then 100.0 else 90.0 + ((s - 0.8) / 0.2) * 10.0
    else if s >= 0.6 then 70.0 + ((s - 0.6) / 0.2) * 20.0
    else if s >= 0.4 then 40.0 + ((s - 0.4) / 0.2) * 30.0
    else if s >= 0.2 then 10.0 + ((s - 0.2) / 0.2) * 30.0
    else (s / 0.2) * 10.0
  }

  /** The documented band end-points. */
  lemma NormalizeScoreAnchors()
    ensures NormalizeScore(0.0) == 0.0 && NormalizeScore(0.2) == 10.0 && NormalizeScore(0.4) == 40.0
    ensures NormalizeScore(0.6) == 70.0 && NormalizeScore(0.8) == 90.0 && NormalizeScore(1.0) == 100.0
  {
  }

  /**
   * The map is non-decreasing and never climbs faster than 150 points per
   * unit of score, so the bands meet without jumps.
   */
  lemma NormalizeScoreMonotoneContinuous(a: real, b: real)
    requires a <= b
    ensures NormalizeScore(a) <= NormalizeScore(b)
    ensures NormalizeScore(b) - NormalizeScore(a) <= 150.0 * (b - a)
    decreases 5 - Band(a)
  {
    var i := Band(a);
    var j := Band(b);
    assert i <= j;
    if i < j {
      var c := BandTop(i);
      WithinBand(a, c, i);
      if i + 1 < j {
        NormalizeScoreMonotoneContinuous(c, b);
      } else {
        WithinBand(c, b, j);
      }
    } else {
      WithinBand(a, b, i);
    }
  }

  /** Index of the band a score falls in: 0 below 0.2, ..., 4 in [0.8, 1.0], 5 above 1.0. */
  function Band(s: real): (i: nat)
    ensures i <= 5
  {
    if s < 0.2 then 0 else if s < 0.4 then 1 else if s < 0.6 then 2
    else if s < 0.8 then 3 else if s <= 1.0 then 4 else 5
  }

  function BandTop(i: nat): real
    requires i < 5
  {
    [0.2, 0.4, 0.6, 0.8, 1.0][i]
  }

  lemma WithinBand(a: real, b: real, i: nat)
    requires a <= b && i <= 5
    requires Band(a) == i || (i < 5 && a == BandTop(i)) || (i > 0 && a == BandTop(i - 1))
    requires Band(b) == i || (i < 5 && b == BandTop(i))
    requires i > 0 ==> a >= BandTop(i - 1)
    ensures NormalizeScore(a) <= NormalizeScore(b)
    ensures NormalizeScore(b) - NormalizeScore(a) <= 150.0 * (b - a)
  {
  }

  /** A search result annotated with its confidence and raw score, as result.copy() with two keys added. */
  datatype RankedHit = RankedHit(hit: Hit, confidence: real, rawScore: real)

  function Annotate(h: Hit): RankedHit {
    RankedHit(h, NormalizeScore(RawScore(h)), RawScore(h))
  }

  function Confidence(r: RankedHit): real { r.confidence }

  predicate IsHigh(r: RankedHit) { r.confidence >= 70.0 }

  predicate IsMedium(r: RankedHit) { 30.0 <= r.confidence < 70.0 }

  predicate IsLow(r: RankedHit) { r.confidence < 30.0 }

  /** The annotated results, in input order, whose confidence reaches the threshold. */
  function Kept(results: seq<Hit>, minConfidence: real): (r: seq<RankedHit>)
    ensures |r| <= |results|
    ensures forall k :: 0 <= k < |r| ==> r[k].confidence >= minConfidence
    ensures forall k :: 0 <= k < |r| ==> exists i :: 0 <= i < |results| && r[k] == Annotate(results[i])
    ensures forall i :: 0 <= i < |results| && NormalizeScore(RawScore(results[i])) >= minConfidence ==>
              Annotate(results[i]) in r
    decreases |results|
  {
    if results == [] then []
    else
      var init := results[..|results| - 1];
      assert forall i :: 0 <= i < |init| ==> init[i] == results[i];
      var k := Kept(init, minConfidence);
      var a := Annotate(results[|results| - 1]);
      if a.confidence < minConfidence then k else k + [a]
  }

  /**
   * filter_and_rank_results: keeps the results whose confidence reaches
   * min_confidence, buckets them at 70 and 30, and sorts every list by
   * confidence, highest first.
   */
  method FilterAndRankResults(results: seq<Hit>, minConfidence: real)
    returns (high: seq<RankedHit>, medium: seq<RankedHit>, low: seq<RankedHit>, all: seq<RankedHit>)
    ensures all == SortDesc(Kept(results, minConfidence), Confidence)
    ensures high == SortDesc(Filter(Kept(results, minConfidence), IsHigh), Confidence)
    ensures medium == SortDesc(Filter(Kept(results, minConfidence), IsMedium), Confidence)
    ensures low == SortDesc(Filter(Kept(results, minConfidence), IsLow), Confidence)
  {
    if results == [] {
      return [], [], [], [];
    }
    high, medium, low, all := [], [], [], [];
    var i := 0;
    while i < |results|
      invariant 0 <= i <= |results|
      invariant all == Kept(results[..i], minConfidence)
      invariant high == Filter(all, IsHigh)
      invariant medium == Filter(all, IsMedium)
      invariant low == Filter(all, IsLow)
    {
      assert results[..i + 1][..i] == results[..i];
      var a := Annotate(results[i]);
      if a.confidence >= minConfidence {
        FilterAppend(all, [a], IsHigh);
        FilterAppend(all, [a], IsMedium);
        FilterAppend(all, [a], IsLow);
        FilterSingle(a, IsHigh);
        FilterSingle(a, IsMedium);
        FilterSingle(a, IsLow);
        all := all + [a];
        if a.confidence >= 70.0 {
          high := high + [a];
        } else if a.confidence >= 30.0 {
          medium := medium + [a];
        } else {
          low := low + [a];
        }
      }
      i := i + 1;
    }
    assert results[..i] == results;
    high := SortDesc(high, Confidence);
    medium := SortDesc(medium, Confidence);
    low := SortDesc(low, Confidence);
    all := SortDesc(all, Confidence);
  }

  lemma {:induction false} FilterPartition(s: seq<RankedHit>)
    ensures multiset(Filter(s, IsHigh)) + multiset(Filter(s, IsMedium)) + multiset(Filter(s, IsLow)) == multiset(s)
  {
    if s != [] {
      var x := s[0];
      var t := s[1..];
      FilterPartition(t);
      assert s == [x] + t;
      PartitionStep(x, t);
    }
  }

  /** x lands in exactly one of the three buckets. */
  lemma PartitionStep(x: RankedHit, t: seq<RankedHit>)
    ensures multiset(Filter([x] + t, IsHigh)) + multiset(Filter([x] + t, IsMedium)) + multiset(Filter([x] + t, IsLow))
      == multiset{x} + (multiset(Filter(t, IsHigh)) + multiset(Filter(t, IsMedium)) + multiset(Filter(t, IsLow)))
  {
    BucketOf(x, t, IsHigh);
    BucketOf(x, t, IsMedium);
    BucketOf(x, t, IsLow);
  }

  /** Filtering x :: t adds x to the filtered t exactly when x satisfies p. */
  lemma BucketOf(x: RankedHit, t: seq<RankedHit>, p: RankedHit -> bool)
    ensures multiset(Filter([x] + t, p)) == (if p(x) then multiset{x} else multiset{}) + multiset(Filter(t, p))
  {
    assert ([x] + t)[0] == x && ([x] + t)[1..] == t;
  }

  /** The three sorted buckets hold exactly the sorted kept results. */
  lemma BucketsPartition(kept: seq<RankedHit>)
    ensures multiset(SortDesc(Filter(kept, IsHigh), Confidence)) + multiset(SortDesc(Filter(kept, IsMedium), Confidence))
            + multiset(SortDesc(Filter(kept, IsLow), Confidence)) == multiset(SortDesc(kept, Confidence))
  {
    FilterPartition(kept);
  }

  /** Every sorted list keeps only elements of its source satisfying p. */
  lemma SortedFilterSatisfies(kept: seq<RankedHit>, p: RankedHit -> bool)
    ensures forall k :: 0 <= k < |SortDesc(Filter(kept, p), Confidence)| ==> p(SortDesc(Filter(kept, p), Confidence)[k])
  {
    var f := Filter(kept, p);
    var sf := SortDesc(f, Confidence);
    forall k | 0 <= k < |sf| ensures p(sf[k]) {
      assert sf[k] in multiset(f);
    }
  }

  /**
   * The ranked lists: every kept result reaches the threshold, the three
   * buckets partition the kept results and each holds only its band. Every
   * list is in descending confidence (the ensures of SortDesc). An empty input
   * gives four empty lists.
   */
  lemma RankingProperties(results: seq<Hit>, minConfidence: real)
    ensures var kept := Kept(results, minConfidence);
      && (forall k :: 0 <= k < |SortDesc(kept, Confidence)| ==> SortDesc(kept, Confidence)[k].confidence >= minConfidence)
      && multiset(SortDesc(Filter(kept, IsHigh), Confidence)) + multiset(SortDesc(Filter(kept, IsMedium), Confidence))
         + multiset(SortDesc(Filter(kept, IsLow), Confidence)) == multiset(SortDesc(kept, Confidence))
      && (forall k :: 0 <= k < |SortDesc(Filter(kept, IsHigh), Confidence)| ==> IsHigh(SortDesc(Filter(kept, IsHigh), Confidence)[k]))
      && (forall k :: 0 <= k < |SortDesc(Filter(kept, IsMedium), Confidence)| ==> IsMedium(SortDesc(Filter(kept, IsMedium), Confidence)[k]))
      && (forall k :: 0 <= k < |SortDesc(Filter(kept, IsLow), Confidence)| ==> IsLow(SortDesc(Filter(kept, IsLow), Confidence)[k]))
      && (results == [] ==> SortDesc(kept, Confidence) == [])
  {
    var kept := Kept(results, minConfidence);
    var all := SortDesc(kept, Confidence);
    forall k | 0 <= k < |all| ensures all[k].confidence >= minConfidence {
      assert all[k] in multiset(kept);
    }
    BucketsPartition(kept);
    SortedFilterSatisfies(kept, IsHigh);
    SortedFilterSatisfies(kept, IsMedium);
    SortedFilterSatisfies(kept, IsLow);
  }

  function First(p: (string, real)): string { p.0 }

  function Second(p: (string, real)): real { p.1 }

  predicate AboveFloor(p: (string, real)) { p.1 >= 0.15 }

  /**
   * The fallback selection: tables by best score, highest first, cut to
   * max_tables, and only then the ones scoring under 0.15 dropped.
   */
  function BasicSelection(columns: seq<Hit>, tables: seq<Hit>, maxTables: int): seq<string> {
    Map(TopItems(BestScores(columns + tables), maxTables), First)
  }

  /** _basic_table_selection */
  method BasicTableSelection(columns: seq<Hit>, tables: seq<Hit>, maxTables: int) returns (r: seq<string>)
    ensures r == BasicSelection(columns, tables, maxTables)
  {
    var scores := ComputeBestScores(columns, tables);
    r := Map(TopItems(scores, maxTables), First);
  }

  /** Filtering a list whose keys are distinct keeps the keys distinct. */
  lemma {:induction false} DistinctMapFilter<T, U>(s: seq<T>, p: T -> bool, f: T -> U)
    requires Distinct(Map(s, f))
    ensures Distinct(Map(Filter(s, p), f))
  {
    if s != [] {
      var x, rest := s[0], s[1..];
      DistinctTail(s, f);
      DistinctMapFilter(rest, p, f);
      if p(x) {
        var t := Filter(rest, p);
        FilteredAvoid(rest, p, f, x);
        assert Filter(s, p) == [x] + t;
        DistinctCons(x, t, f);
      } else {
        assert Filter(s, p) == Filter(rest, p);
      }
    }
  }

  /** The keys of the tail are distinct, and none is the head's key. */
  lemma DistinctTail<T, U>(s: seq<T>, f: T -> U)
    requires s != [] && Distinct(Map(s, f))
    ensures Distinct(Map(s[1..], f))
    ensures forall q :: 0 <= q < |s| - 1 ==> f(s[1..][q]) != f(s[0])
  {
    var m := Map(s, f);
    assert Map(s[1..], f) == m[1..];
    forall q | 0 <= q < |s| - 1 ensures f(s[1..][q]) != f(s[0]) {
      assert m[0] == f(s[0]) && m[q + 1] == f(s[1..][q]);
    }
  }

  /** What survives the filter of a list avoiding x's key still avoids it. */
  lemma FilteredAvoid<T, U>(rest: seq<T>, p: T -> bool, f: T -> U, x: T)
    requires forall q :: 0 <= q < |rest| ==> f(rest[q]) != f(x)
    ensures forall k :: 0 <= k < |Filter(rest, p)| ==> f(Filter(rest, p)[k]) != f(x)
  {
    var t := Filter(rest, p);
    FilterSub(rest, p);
    forall k | 0 <= k < |t| ensures f(t[k]) != f(x) {
      assert t[k] in multiset(t);
      assert t[k] in multiset(rest);
      var q :| 0 <= q < |rest| && rest[q] == t[k];
    }
  }

  /** Putting an element with a fresh key in front keeps the keys distinct. */
  lemma DistinctCons<T, U>(x: T, t: seq<T>, f: T -> U)
    requires Distinct(Map(t, f))
    requires forall k :: 0 <= k < |t| ==> f(t[k]) != f(x)
    ensures Distinct(Map([x] + t, f))
  {
    var m := Map([x] + t, f);
    forall i, j | 0 <= i < j < |m| ensures m[i] != m[j] {
      assert m[j] == f(t[j - 1]);
      if i > 0 {
        assert m[i] == f(t[i - 1]);
        assert Map(t, f)[i - 1] == m[i] && Map(t, f)[j - 1] == m[j];
      }
    }
  }

  /** The ranked, cut and floored items of a dictionary. */
  function TopItems(d: Dict<string, real>, maxTables: int): seq<(string, real)>
    requires Valid(d)
  {
    Filter(PyPrefix(SortDesc(Items(d), Second), maxTables), AboveFloor)
  }

  lemma TopItemsDistinct(d: Dict<string, real>, maxTables: int)
    requires Valid(d)
    ensures Distinct(Map(TopItems(d, maxTables), First))
  {
    var items := Items(d);
    assert Map(items, First) == d.order;
    var ranked := SortDesc(items, Second);
    DistinctMapPermutation(items, ranked, First);
    var top := PyPrefix(ranked, maxTables);
    assert Map(top, First) == Map(ranked, First)[..|top|];
    DistinctMapFilter(top, AboveFloor, First);
  }

  lemma TopItemsSorted(d: Dict<string, real>, maxTables: int)
    requires Valid(d)
    ensures SortedDesc(TopItems(d, maxTables), Second)
  {
    var ranked := SortDesc(Items(d), Second);
    var top := PyPrefix(ranked, maxTables);
    PrefixSortedDesc(ranked, |top|, Second);
    FilterSortedDesc(top, AboveFloor, Second);
  }

  lemma ItemsMember(d: Dict<string, real>, x: (string, real))
    requires Valid(d) && x in multiset(Items(d))
    ensures x.0 in d.entries && d.entries[x.0] == x.1
  {
    var items := Items(d);
    assert x in items;
    var i :| 0 <= i < |items| && items[i] == x;
  }

  lemma TopItemsMember(d: Dict<string, real>, maxTables: int, k: nat)
    requires Valid(d) && k < |TopItems(d, maxTables)|
    ensures TopItems(d, maxTables)[k] in multiset(Items(d))
  {
    var ranked := SortDesc(Items(d), Second);
    var top := PyPrefix(ranked, maxTables);
    var kept := Filter(top, AboveFloor);
    var x := kept[k];
    FilterSub(top, AboveFloor);
    assert x in multiset(kept);
    assert x in multiset(top);
    var j :| 0 <= j < |top| && top[j] == x;
    assert ranked[j] == x;
    assert x in multiset(ranked);
  }

  lemma TopItemsEntries(d: Dict<string, real>, maxTables: int)
    requires Valid(d)
    ensures forall k :: 0 <= k < |TopItems(d, maxTables)| ==>
      var p := TopItems(d, maxTables)[k];
      p.0 in d.entries && d.entries[p.0] == p.1 && p.1 >= 0.15
  {
    var kept := TopItems(d, maxTables);
    forall k | 0 <= k < |kept| ensures kept[k].0 in d.entries && d.entries[kept[k].0] == kept[k].1 {
      TopItemsMember(d, maxTables, k);
      ItemsMember(d, kept[k]);
    }
  }

  /**
   * A table with a best score of at least 0.15 that is left out lost its
   * place to the cut: the selection is full, and every selected table
   * scores at least as much.
   */
  lemma TopItemsComplete(d: Dict<string, real>, maxTables: int, t: string)
    requires Valid(d) && t in d.entries && d.entries[t] >= 0.15
    requires forall k :: 0 <= k < |TopItems(d, maxTables)| ==> TopItems(d, maxTables)[k].0 != t
    ensures |TopItems(d, maxTables)| == |PyPrefix(d.order, maxTables)| < |d.order|
    ensures forall k :: 0 <= k < |TopItems(d, maxTables)| ==> TopItems(d, maxTables)[k].1 >= d.entries[t]
  {
    var items := Items(d);
    var ranked := SortDesc(items, Second);
    var top := PyPrefix(ranked, maxTables);
    var x := (t, d.entries[t]);
    var i :| 0 <= i < |d.order| && d.order[i] == t;
    assert items[i] == x;
    assert x in multiset(ranked);
    var j :| 0 <= j < |ranked| && ranked[j] == x;
    assert TopItems(d, maxTables) == Filter(top, AboveFloor);
    assert x !in Filter(top, AboveFloor);
    if j < |top| {
      assert top[j] == x;
      FilterKeeps(top, AboveFloor, j);
      assert false;
    }
    assert forall k :: 0 <= k < |top| ==> top[k] == ranked[k] && Second(ranked[k]) >= Second(ranked[j]);
    FilterAll(top, AboveFloor);
  }

  /**
   * The fallback selection holds at most max_tables distinct tables, each
   * with best score at least 0.15, in non-increasing order of best score.
   * A table scoring at least 0.15 is left out only when the cut is full of
   * tables that score at least as much.
   */
  lemma BasicSelectionProperties(columns: seq<Hit>, tables: seq<Hit>, maxTables: int)
    ensures var r := BasicSelection(columns, tables, maxTables);
      var best := BestScores(columns + tables).entries;
      && (0 <= maxTables ==> |r| <= maxTables)
      && Distinct(r)
      && (forall k :: 0 <= k < |r| ==> r[k] in best && best[r[k]] >= 0.15)
      && (forall k, l :: 0 <= k < l < |r| ==> best[r[k]] >= best[r[l]])
      && (forall t :: t in best && best[t] >= 0.15 && t !in r ==>
            && |r| == |PyPrefix(BestScores(columns + tables).order, maxTables)|
            && (0 <= maxTables ==> |r| == maxTables)
            && forall k :: 0 <= k < |r| ==> best[r[k]] >= best[t])
  {
    var d := BestScores(columns + tables);
    var r := BasicSelection(columns, tables, maxTables);
    TopItemsDistinct(d, maxTables);
    TopItemsSorted(d, maxTables);
    TopItemsEntries(d, maxTables);
    forall t | t in d.entries && d.entries[t] >= 0.15 && t !in r
      ensures |r| == |PyPrefix(d.order, maxTables)| < |d.order|
      ensures forall k :: 0 <= k < |r| ==> d.entries[r[k]] >= d.entries[t]
    {
      var top := TopItems(d, maxTables);
      forall k | 0 <= k < |top| ensures top[k].0 != t {
        assert r[k] == top[k].0;
      }
      TopItemsComplete(d, maxTables, t);
    }
  }
}
