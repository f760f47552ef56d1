// The two sample runs at the end of simple_table_selector.py, with the
// built-in bridge rules and max_tables = 4.

module SimpleSelectionSamples {
  import opened Wrappers
  import opened Strings
  import opened Sequences
  import opened Dicts
  import opened Hits
  import opened SimpleSelection

  function ColumnHit(table: string, column: string, score: real): Hit {
    Hit(Some(table), Some(column), Some(score))
  }

  function TableHit(table: string, score: real): Hit {
    Hit(Some(table), None, Some(score))
  }

  /** A list without repeats whose set is {x} is [x]. */
  lemma SingletonList(s: seq<string>, x: string)
    requires Distinct(s) && forall t :: t in s <==> t == x
    ensures s == [x]
  {
    assert SetOf(s) == {x};
    DistinctSetCard(s);
  }

  /** The rule key a+b names the tables a and b. */
  lemma {:induction false} RuleKeyTables(a: string, b: string)
    requires '+' !in a && '+' !in b
    ensures RuleTables(a + "+" + b) == {a, b}
  {
    var key := a + "+" + b;
    assert key[|a|] == '+';
    assert '+' in key;
    var i := IndexOf(key, '+');
    assert key[..|a|] == a;
    assert i == |a|;
    assert key[i + 1..] == b;
    assert Split(key, '+') == [a, b];
  }

  const OrderTables: seq<string> := ["ord_hdr", "ord_ln"]

  /** Two rules over the same pair of tables and the same bridges fire together, when both tables are relevant. */
  lemma TwoRulesBridged(rules: BridgeRules, relevant: seq<string>, c: string, p: string, bridges: seq<string>)
    requires |rules.order| == 2 && forall k :: k in rules.order ==> k in rules.entries
    requires RuleTables(rules.order[0]) == {c, p} && RuleTables(rules.order[1]) == {c, p}
    requires rules.entries[rules.order[0]] == bridges && rules.entries[rules.order[1]] == bridges
    ensures (c in relevant && p in relevant) ==> Bridged(rules, rules.order, relevant) == AppendNew(AppendNew(relevant, bridges), bridges)
    ensures !(c in relevant && p in relevant) ==> Bridged(rules, rules.order, relevant) == relevant
  {
    var both := c in relevant && p in relevant;
    assert both <==> {c, p} <= SetOf(relevant);
    var first := rules.order[..1];
    assert |first| == 1 && first[..0] == [] && first[0] == rules.order[0];
    assert Bridged(rules, first[..0], relevant) == relevant;
    var f1 := Bridged(rules, first, relevant);
    assert f1 == if both then AppendNew(relevant, bridges) else relevant;
    assert rules.order[..|rules.order| - 1] == first;
    assert rules.order[|rules.order| - 1] == rules.order[1];
  }

  /** Both built-in rules fire exactly when cust and prd_mstr are both relevant. */
  lemma DefaultBridged(relevant: seq<string>)
    ensures ("cust" in relevant && "prd_mstr" in relevant) ==>
      Bridged(DefaultRules(), DefaultRules().order, relevant) == AppendNew(AppendNew(relevant, OrderTables), OrderTables)
    ensures !("cust" in relevant && "prd_mstr" in relevant) ==> Bridged(DefaultRules(), DefaultRules().order, relevant) == relevant
  {
    DefaultRuleTables();
    DefaultRuleBridges();
    TwoRulesBridged(DefaultRules(), relevant, "cust", "prd_mstr", OrderTables);
  }

  lemma DefaultRuleTables()
    ensures RuleTables(DefaultRules().order[0]) == {"cust", "prd_mstr"}
    ensures RuleTables(DefaultRules().order[1]) == {"cust", "prd_mstr"}
  {
    CustProductKey();
    ProductCustKey();
    assert {"prd_mstr", "cust"} == {"cust", "prd_mstr"};
  }

  lemma DefaultRuleBridges()
    ensures |DefaultRules().order| == 2 && forall k :: k in DefaultRules().order ==> k in DefaultRules().entries
    ensures DefaultRules().entries[DefaultRules().order[0]] == OrderTables
    ensures DefaultRules().entries[DefaultRules().order[1]] == OrderTables
  {
  }

  lemma CustProductKey()
    ensures RuleTables("cust+prd_mstr") == {"cust", "prd_mstr"}
  {
    assert "cust+prd_mstr" == "cust" + "+" + "prd_mstr";
    RuleKeyTables("cust", "prd_mstr");
  }

  lemma ProductCustKey()
    ensures RuleTables("prd_mstr+cust") == {"prd_mstr", "cust"}
  {
    assert "prd_mstr+cust" == "prd_mstr" + "+" + "cust";
    RuleKeyTables("prd_mstr", "cust");
  }

  const EmployeeColumns: seq<Hit> := [
    ColumnHit("emp_mstr", "fnm", 0.412), ColumnHit("emp_mstr", "lnm", 0.382),
    ColumnHit("cust", "fnm", 0.340), ColumnHit("cust", "lnm", 0.328),
    ColumnHit("wh_mstr", "mgr_nm", 0.323)]

  const EmployeeTables: seq<Hit> := [
    TableHit("emp_mstr", 0.286), TableHit("cust", 0.250), TableHit("wh_mstr", 0.200)]

  /** Tables named by the hits all lie in `names`, so every key of the best scores does. */
  lemma BestScoresWithin(hits: seq<Hit>, names: set<string>)
    requires forall i :: 0 <= i < |hits| && HasTable(hits[i]) ==> hits[i].table.value in names
    ensures forall t :: t in BestScores(hits).entries ==> t in names
  {
    forall t | t in BestScores(hits).entries ensures t in names {
      BestScoresMeaning(hits, t);
    }
  }

  /** The best score of a table is at least the score of any hit naming it. */
  lemma BestScoresAbove(hits: seq<Hit>, i: nat)
    requires i < |hits| && HasTable(hits[i])
    ensures hits[i].table.value in BestScores(hits).entries
    ensures BestScores(hits).entries[hits[i].table.value] >= RawScore(hits[i])
  {
    BestScoresMeaning(hits, hits[i].table.value);
  }

  /** The best scores of the employee sample name emp_mstr, cust and wh_mstr, with emp_mstr at 0.412 or more. */
  lemma EmployeeScores()
    ensures forall t :: t in BestScores(EmployeeColumns + EmployeeTables).entries ==> t in {"emp_mstr", "cust", "wh_mstr"}
    ensures "emp_mstr" in BestScores(EmployeeColumns + EmployeeTables).entries
    ensures BestScores(EmployeeColumns + EmployeeTables).entries["emp_mstr"] >= MinScore
  {
    var hits := EmployeeColumns + EmployeeTables;
    assert |hits| == 8;
    BestScoresWithin(hits, {"emp_mstr", "cust", "wh_mstr"});
    BestScoresAbove(hits, 0);
  }

  /** "how many employees with name Michael": the employee group excludes cust and wh_mstr, leaving emp_mstr alone. */
  lemma EmployeeSample(query: string)
    requires AnyWord(ToLower(query), EmployeeWords)
    ensures Selection(NewSelector(None), query, EmployeeColumns, EmployeeTables, 4) == ["emp_mstr"]
  {
    EmployeeRelevant(query);
    var relevant := Relevant(query, EmployeeColumns, EmployeeTables);
    assert "cust" !in relevant;
    DefaultBridged(relevant);
    ShortPrefix(relevant, 4);
  }

  /** A list no longer than the limit keeps all of it. */
  lemma ShortPrefix(s: seq<string>, n: int)
    requires 0 <= |s| <= n
    ensures PyPrefix(s, n) == s
  {
  }

  lemma EmployeeRelevant(query: string)
    requires AnyWord(ToLower(query), EmployeeWords)
    ensures Relevant(query, EmployeeColumns, EmployeeTables) == ["emp_mstr"]
  {
    EmployeeScores();
    assert QueryExclusions(ToLower(query)) == {"cust", "wh_mstr", "mkt_cmp"};
    SingleRelevant(query, EmployeeColumns, EmployeeTables, "emp_mstr", {"emp_mstr", "cust", "wh_mstr"});
  }

  /** When every other scored table is excluded and x is kept, x is the only relevant table. */
  lemma SingleRelevant(query: string, columns: seq<Hit>, tables: seq<Hit>, x: string, names: set<string>)
    requires forall t :: t in BestScores(columns + tables).entries ==> t in names
    requires x in BestScores(columns + tables).entries && BestScores(columns + tables).entries[x] >= MinScore
    requires x !in QueryExclusions(ToLower(query)) && names - {x} <= QueryExclusions(ToLower(query))
    ensures Relevant(query, columns, tables) == [x]
  {
    var relevant := Relevant(query, columns, tables);
    RelevantMeaning(query, columns, tables);
    forall t ensures t in relevant <==> t == x {
      if t != x && t in BestScores(columns + tables).entries {
        assert t in names - {x};
      }
    }
    SingletonList(relevant, x);
  }

  const PurchaseColumns: seq<Hit> := [ColumnHit("prd_mstr", "prd_id", 0.302), ColumnHit("cust", "fnm", 0.340)]

  const PurchaseTables: seq<Hit> := [TableHit("prd_mstr", 0.280), TableHit("cust", 0.250)]

  /** One more hit naming a table: the defaultdict update of the loop body, on the entries. */
  lemma ScoreStep(hits: seq<Hit>, h: Hit, m: map<string, real>)
    requires BestScores(hits).entries == m && HasTable(h)
    ensures BestScores(hits + [h]).entries
         == m[h.table.value := Max(if h.table.value in m then m[h.table.value] else 0.0, RawScore(h))]
  {
    assert (hits + [h])[..|hits|] == hits;
  }

  /** A lower hit on a table already present leaves the entries as they are. */
  lemma LowerStep(hits: seq<Hit>, h: Hit, m: map<string, real>)
    requires BestScores(hits).entries == m && HasTable(h)
    requires h.table.value in m && RawScore(h) <= m[h.table.value]
    ensures BestScores(hits + [h]).entries == m
  {
    ScoreStep(hits, h, m);
    assert m[h.table.value := m[h.table.value]] == m;
  }

  /**
   * A column hit on each of two tables, then a lower table hit on each: the
   * best scores are the column scores.
   */
  lemma TwoTableScores(p: string, q: string, cp: string, cq: string, a: real, b: real, x: real, y: real)
    requires p != q && p != "" && q != "" && 0.0 <= x <= a && 0.0 <= y <= b
    ensures BestScores([ColumnHit(p, cp, a), ColumnHit(q, cq, b), TableHit(p, x), TableHit(q, y)]).entries == map[p := a, q := b]
  {
    var h0, h1, h2, h3 := ColumnHit(p, cp, a), ColumnHit(q, cq, b), TableHit(p, x), TableHit(q, y);
    ScoreStep([], h0, map[]);
    assert [] + [h0] == [h0];
    ScoreStep([h0], h1, map[p := a]);
    assert [h0] + [h1] == [h0, h1];
    LowerStep([h0, h1], h2, map[p := a, q := b]);
    assert [h0, h1] + [h2] == [h0, h1, h2];
    LowerStep([h0, h1, h2], h3, map[p := a, q := b]);
    assert [h0, h1, h2] + [h3] == [h0, h1, h2, h3];
  }

  /** The best scores of the purchase sample: cust at 0.340 above prd_mstr at 0.302. */
  lemma PurchaseScores()
    ensures BestScores(PurchaseColumns + PurchaseTables).entries == map["prd_mstr" := 0.302, "cust" := 0.340]
  {
    assert PurchaseColumns + PurchaseTables
        == [ColumnHit("prd_mstr", "prd_id", 0.302), ColumnHit("cust", "fnm", 0.340), TableHit("prd_mstr", 0.280), TableHit("cust", 0.250)];
    TwoTableScores("prd_mstr", "cust", "prd_id", "fnm", 0.302, 0.340, 0.280, 0.250);
  }

  /** A list without repeats holding exactly x and y, ordered by a score that ranks x above y, is [x, y]. */
  lemma PairList(s: seq<string>, x: string, y: string, score: map<string, real>)
    requires x != y && x in score && y in score && score[x] > score[y]
    requires Distinct(s) && forall t :: t in s <==> t == x || t == y
    requires forall t :: t in s ==> t in score
    requires forall i, j :: 0 <= i < j < |s| ==> score[s[i]] >= score[s[j]]
    ensures s == [x, y]
  {
    assert SetOf(s) == {x, y};
    DistinctSetCard(s);
    assert |s| == 2 && s[0] in s && s[1] in s && s[0] != s[1];
  }

  /** Two kept tables with different scores are listed best first. */
  lemma PairRelevant(query: string, columns: seq<Hit>, tables: seq<Hit>, x: string, y: string)
    requires var best := BestScores(columns + tables).entries;
      && x != y && (forall t :: t in best <==> t == x || t == y)
      && best[x] > best[y] >= MinScore
      && x !in QueryExclusions(ToLower(query)) && y !in QueryExclusions(ToLower(query))
    ensures Relevant(query, columns, tables) == [x, y]
  {
    RelevantMeaning(query, columns, tables);
    PairList(Relevant(query, columns, tables), x, y, BestScores(columns + tables).entries);
  }

  /** Appending two new, different bridges twice adds them once, in order. */
  lemma AppendTwiceNew(f: seq<string>, a: string, b: string)
    requires a != b && a !in f && b !in f
    ensures AppendNew(AppendNew(f, [a, b]), [a, b]) == f + [a, b]
  {
    assert [a, b][..1] == [a] && [a][..0] == [];
    assert AppendNew(f, [a]) == f + [a];
    assert AppendNew(f, [a, b]) == f + [a, b];
    assert AppendNew(f + [a, b], [a]) == f + [a, b];
  }

  /** A product query that is neither an employee nor a customer query keeps cust and prd_mstr. */
  lemma ProductExclusions(ql: string)
    requires !AnyWord(ql, EmployeeWords) && !AnyWord(ql, CustomerWords) && AnyWord(ql, ProductWords)
    ensures QueryExclusions(ql) == {"emp_mstr", "wh_mstr", "mkt_cmp"}
    ensures "cust" !in QueryExclusions(ql) && "prd_mstr" !in QueryExclusions(ql)
  {
  }

  /**
   * "how many products purchased by Rebecca": the product group excludes
   * neither cust nor prd_mstr, so both are kept, best first, and the
   * built-in rule adds the two order tables.
   */
  lemma PurchaseSample(query: string)
    requires !AnyWord(ToLower(query), EmployeeWords) && !AnyWord(ToLower(query), CustomerWords)
    requires AnyWord(ToLower(query), ProductWords)
    ensures Selection(NewSelector(None), query, PurchaseColumns, PurchaseTables, 4)
         == ["cust", "prd_mstr", "ord_hdr", "ord_ln"]
  {
    PurchaseRelevant(query);
    CustomerProductBridged(Relevant(query, PurchaseColumns, PurchaseTables));
  }

  lemma PurchaseRelevant(query: string)
    requires !AnyWord(ToLower(query), EmployeeWords) && !AnyWord(ToLower(query), CustomerWords)
    requires AnyWord(ToLower(query), ProductWords)
    ensures Relevant(query, PurchaseColumns, PurchaseTables) == ["cust", "prd_mstr"]
  {
    PurchaseScores();
    ProductExclusions(ToLower(query));
    PairRelevant(query, PurchaseColumns, PurchaseTables, "cust", "prd_mstr");
  }

  /**
   * With cust and prd_mstr the relevant tables, the built-in rules append
   * ord_hdr and ord_ln once, and the four tables fit under max_tables = 4.
   */
  lemma CustomerProductBridged(relevant: seq<string>)
    requires |relevant| == 2 && relevant[0] == "cust" && relevant[1] == "prd_mstr"
    ensures PyPrefix(Bridged(DefaultRules(), DefaultRules().order, relevant), 4) == ["cust", "prd_mstr", "ord_hdr", "ord_ln"]
  {
    assert "ord_hdr" !in relevant && "ord_ln" !in relevant;
    DefaultBridged(relevant);
    AppendTwiceNew(relevant, "ord_hdr", "ord_ln");
    PairExtended(relevant, "ord_hdr", "ord_ln");
  }

  /** Appending two names to a pair gives four names, all kept by a prefix of four. */
  lemma PairExtended(relevant: seq<string>, a: string, b: string)
    requires |relevant| == 2
    ensures PyPrefix(relevant + [a, b], 4) == [relevant[0], relevant[1], a, b]
  {
    var final := relevant + [a, b];
    assert |final| == 4;
    assert final[0] == relevant[0] && final[1] == relevant[1] && final[2] == a && final[3] == b;
  }
}
