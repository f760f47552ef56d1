# sql-generator schema selection, in Dafny

This project models the schema-selection core of the sql-generator
repository and proves properties of it. The core turns noisy
semantic-search hits over a database schema into a small set of tables and
columns, then plans the prompt that asks a language model for SQL. The
small helpers around it are modelled as well: string clean-up, lookups,
ordering, the retry and cache logic of the LLM service, and dotted-path
configuration access.

Each source file is one module (file names follow the source):

- `relationship_graph.dfy` (`RelationshipGraphs`): the undirected table graph that `SchemaManager` builds from its `table_patterns`.
- `path_finder.dfy` (`PathFinding`): breadth-first path search with set-signature de-duplication, and bridge-table completion.
- `schema_manager.dfy` (`SchemaSelection`): confidence bands, table scores from hits, context filtering, the per-table column budget, relationship inference, and the composed `select_tables` / `select_columns`.
- `completion_scenario.dfy` (`CompletionScenario`): the cust - ord_hdr - ord_ln - prd_mstr completion scenario of the repository's test scripts.
- `query_analyzer.dfy` (`QueryAnalysis`): the query-context classifier and the keyed pattern dicts `load_config` fills.
- `score_ranking.dfy` (`ScoreRanking`): `normalize_score`, `filter_and_rank_results` and `_basic_table_selection` of `main.py`.
- `hits.dfy` (`Hits`): the per-table best score and the confidence floor that both selectors share.
- `simple_table_selector.dfy` and `simple_selector_samples.dfy` (`SimpleSelection`, `SimpleSelectionSamples`): the selector the prompt pipeline uses, and its two built-in sample runs.
- `schema_searcher.dfy` (`SchemaSearch`): distance-to-score post-processing and the sort and cut of `search`.
- `vector_store.dfy` (`VectorStorage`): record validation, unique ids, flattened metadata and collection names.
- `semantic_schema.dfy` (`SemanticCorpus`): whitespace normalisation and the memoised column and table corpora.
- `schema_loader.dfy` (`SchemaLoading`): the name and alias maps and the catalogue lookups.
- `sql_prompt_generator.dfy` (`PromptGeneration`): template choice, foreign-key guessing, table extraction from search results, and the last-prompt field.
- `llm_service.dfy` (`LLM`): SQL extraction from a model reply, provider order, the retry loop and the response cache.
- `config_manager.dfy` (`ConfigManager`): `Config.get` and `Config.set` on the nested configuration dict.
- `generator.dfy` (`Generator`): `SQLResult` defaults, result confidence, table extraction and query validation.
- `common.dfy`: shared `Option`/`Result`, Python string operations, sequence helpers with Python's slicing and stable sorting, and insertion-ordered dictionaries.

Modelling conventions:

- A Python dict is a `Dict`: a key sequence in insertion order plus a map. Code that depends on dict order sees the same order here.
- Iteration over a Python `set` has no defined order. Methods pick the next element with `:|`, and no contract depends on the choice.
- Python floats are `real`.
- Configuration arrives already loaded. `QueryAnalysis.Analyzer` is built from the parsed `table_patterns`, `query_patterns` and `domain_config` (by `LoadPatterns`), and `Config` and `SchemaLoader` from their parsed dicts. Reading the JSON files is left out.
- Objects whose fields change after construction are classes: `RelationshipGraph`, `Config`, `LLMService` (its cache), `SemanticSchema` (its memo fields), `SQLPromptGenerator` (its last prompt) and `SchemaLoader` (maps built by the constructor). Objects that only hold settings (`SchemaManager`, `QueryAnalyzer`, `SimpleTableSelector`) are datatypes.
- Loops are methods with invariants, proved equal to a specification function. The properties are proved as lemmas about that function.

Where the code and the intended design disagree, the model follows the code:

- Confidences are on a 0..1 scale, not 0..100, in the schema manager (`sql_generator/core/schema_manager.py:399-415`). Scores outside 0..1 are not clamped there, unlike `main.py`'s `normalize_score`.
- A table-level hit is averaged into a table's existing score instead of taking the maximum (`sql_generator/core/schema_manager.py:351`). `SchemaSelection.AveragingLowers` shows a weak table hit lowering a score.
- The initial selection is the first `max_tables` keys in dict insertion order, not the most confident ones (`sql_generator/core/schema_manager.py:237`).
- A table that is both suggested and excluded is added back at the minimum confidence (`sql_generator/core/schema_manager.py:391-395`).
- The alias map keeps the last table that claims a name, while `find_table_by_alias` returns the first table listing the alias (`sql_generator/schema/schema_loader.py:49-56` and `:69-74`). `SchemaLoading.AliasCollision` exhibits the difference.
- Bridge completion takes the first shortest path found. That depends on set iteration order, which the model leaves open.

## Model

| member | source | states |
|---|---|---|
| RelationshipGraphs.WithKey | sql_generator/core/schema_manager.py:43-46 | the adjacency afterwards has a key for the table |
| RelationshipGraphs.LinkMeaning | sql_generator/core/schema_manager.py:41-49 | add_relationship creates both keys and adds exactly the edge in both directions; no other adjacency changes |
| RelationshipGraphs.LinkSymmetric | sql_generator/core/schema_manager.py:41-49 | adding a relationship keeps the graph symmetric |
| RelationshipGraphs.TargetTable | sql_generator/core/schema_manager.py:104-108 | the target is dot-free; with a '.' it is the text before the first '.', otherwise the whole string |
| RelationshipGraphs.TargetOfDotted | sql_generator/core/schema_manager.py:104-106 | "table.column" with a dot-free table names that table |
| RelationshipGraphs.DeclaredComplete | sql_generator/core/schema_manager.py:99-103 | every relationship string of every table pattern is among the declared pairs |
| RelationshipGraphs.DeclaredSound | sql_generator/core/schema_manager.py:99-103 | every declared pair comes from some table pattern |
| RelationshipGraphs.LinksMeaning | sql_generator/core/schema_manager.py:86-123 | the built graph is symmetric and its edges are exactly the declared table-target pairs, in either direction |
| RelationshipGraphs.MetadataMeaning | sql_generator/core/schema_manager.py:111-120 | every stored metadata entry joins the declaring table and its target in one of the two orders, and its type is foreign_key exactly when the string holds a '.' |
| RelationshipGraphs.RelationshipGraph.constructor | sql_generator/core/schema_manager.py:91-94 | a new graph is empty |
| RelationshipGraphs.RelationshipGraph.AddRelationship | sql_generator/core/schema_manager.py:41-53 | links both ways; metadata is stored under both orders only when given |
| RelationshipGraphs.LinksSnoc | sql_generator/core/schema_manager.py:103-120 | one more declared pair adds one link to its target |
| RelationshipGraphs.MetadataSnoc | sql_generator/core/schema_manager.py:111-120 | one more declared pair stores its metadata under both orders |
| RelationshipGraphs.DeclaredStep | sql_generator/core/schema_manager.py:103-120 | one more relationship string of a pattern gives one more link and two more metadata entries |
| RelationshipGraphs.BuildRelationshipGraph | sql_generator/core/schema_manager.py:86-123 | a fresh graph whose adjacency and metadata are exactly those of the declared pairs, in order |
| RelationshipGraphs.AddDeclaration | sql_generator/core/schema_manager.py:100-120 | the inner loop adds the links and metadata of every relationship string of one pattern |
| RelationshipGraphs.AddDeclared | sql_generator/core/schema_manager.py:104-120 | the loop body on one relationship string adds its link and metadata |
| PathFinding.PowerSet | sql_generator/core/schema_manager.py:146-150 | every set of tables is a possible path signature, which bounds the search |
| PathFinding.SamePrefix | sql_generator/core/schema_manager.py:146-150 | a linked simple path over the same tables as a chordless simple path, from the same start, agrees with it on every prefix |
| PathFinding.SameTablesSamePath | sql_generator/core/schema_manager.py:146-150 | the sorted-tables signature loses no path that matters: such a path equals the chordless one |
| PathFinding.TargetPrefix | sql_generator/core/schema_manager.py:140-159 | every proper prefix of a reportable path is a walk the search may enqueue, within the depth bound, whose next table is a new neighbour |
| PathFinding.Shortcut | sql_generator/core/schema_manager.py:125-162 | a path with a chord shortens to a chordless one with the same ends and no more tables |
| PathFinding.NextAfterPop | sql_generator/core/schema_manager.py:140-150 | popping the queue keeps the progress of every reportable path |
| PathFinding.PopSkip | sql_generator/core/schema_manager.py:143-149 | popping a path that is too long or whose signature was seen keeps every reportable path covered |
| PathFinding.PopVisit | sql_generator/core/schema_manager.py:146-152 | visiting the popped path keeps every reportable path covered while its neighbours are tried |
| PathFinding.VisitedIsExpanded | sql_generator/core/schema_manager.py:146-152 | a walk with the signature of a prefix of a reportable path is that prefix, and the path continues at its last table |
| PathFinding.Step | sql_generator/core/schema_manager.py:152-159 | trying one neighbour (record the path on the target, enqueue a new table, skip a repeat) keeps every reportable path covered |
| PathFinding.FinalNext | sql_generator/core/schema_manager.py:140-159 | with the queue empty, each prefix of a reportable path has led on to the next |
| PathFinding.Final | sql_generator/core/schema_manager.py:140-159 | once the queue is empty every reportable path has been found |
| PathFinding.ShortestFirst | sql_generator/core/schema_manager.py:161-162 | after sorting by length the first path is a shortest path, and there is one whenever a path within the depth bound exists |
| PathFinding.SearchInit | sql_generator/core/schema_manager.py:136-138 | the queue holding [table1] satisfies the search invariant |
| PathFinding.SearchDone | sql_generator/core/schema_manager.py:140-159 | when the loop ends every reportable path has been found |
| PathFinding.SortedPaths | sql_generator/core/schema_manager.py:161-162 | sorting by length keeps every found path and orders them by length |
| PathFinding.SelfPath | sql_generator/core/schema_manager.py:133-134 | the only simple path from a table to itself is the table alone |
| PathFinding.FindRelationshipPaths | sql_generator/core/schema_manager.py:125-162 | no paths when a table is unknown; [[t1]] when both ends are the same; otherwise simple paths within max_depth+1 tables, sorted by length, including every chordless one, non-empty whenever a bounded path exists, the first being a shortest path |
| PathFinding.InteriorCovers | sql_generator/core/schema_manager.py:187 | a path's tables are its two ends and its interior |
| PathFinding.JoinedGrows | sql_generator/core/schema_manager.py:174-190 | two tables joined within a set of tables stay joined within a larger one |
| PathFinding.AddInterior | sql_generator/core/schema_manager.py:187-190 | the interior's tables are added, and those not yet present become bridges |
| PathFinding.CompletePair | sql_generator/core/schema_manager.py:180-190 | handling one pair keeps the completion invariant, only adds tables and joins that pair within the completed tables |
| PathFinding.PairsJoinedGrows | sql_generator/core/schema_manager.py:178-190 | pairs joined within a set stay joined within a larger one |
| PathFinding.PairsJoinedStep | sql_generator/core/schema_manager.py:179-190 | joining one more pair extends the range of joined pairs |
| PathFinding.PairsJoinedRow | sql_generator/core/schema_manager.py:178-179 | finishing one row of pairs moves to the next row |
| PathFinding.CompleteFrom | sql_generator/core/schema_manager.py:179-190 | the inner loop joins every pair starting at table i |
| PathFinding.CompleteTableRelationships | sql_generator/core/schema_manager.py:164-197 | disabled or at most one table returns the input and no bridges; otherwise both lists are sorted and duplicate-free, the completed list is the input plus the bridges, bridges are new tables lying inside a shortest path between two selected tables, and every pair of selected tables is joined within the completed list |
| PathFinding.CompletionResult | sql_generator/core/schema_manager.py:193-197 | the sorted lists have the members of the completed and bridge sets, with the meaning above |
| SchemaSelection.ColumnConfidence | sql_generator/core/schema_manager.py:399-415 | a raw score in 0..1 maps into 0..1; below 0 it stays below 0 and above 1 above 1 (no clamping) |
| SchemaSelection.ColumnConfidenceAnchors | sql_generator/core/schema_manager.py:406-415 | the band end-points: 0, 0.2, 0.4, 0.6, 0.8 and 1.0 map to 0, 0.1, 0.4, 0.7, 0.9 and 1.0 |
| SchemaSelection.ColumnConfidenceMonotone | sql_generator/core/schema_manager.py:406-415 | the map is non-decreasing on all inputs and its slope never exceeds 1.5, so the bands meet without jumps |
| SchemaSelection.ColumnConfidenceIsNormalized | sql_generator/core/schema_manager.py:406-415 | on 0..1 it is main.py's normalize_score divided by 100 |
| SchemaSelection.ColumnConfidenceUnclamped | sql_generator/core/schema_manager.py:414-415 | out-of-range scores extrapolate: -1.0 gives -0.5 and 2.0 gives 1.5 |
| SchemaSelection.ColumnPass | sql_generator/core/schema_manager.py:331-340 | the scores after the column loop form a well-formed dict |
| SchemaSelection.TablePass | sql_generator/core/schema_manager.py:342-351 | the scores after the table loop form a well-formed dict |
| SchemaSelection.ExtractTables | sql_generator/core/schema_manager.py:326-353 | the extracted table scores form a well-formed dict |
| SchemaSelection.ExtractTablesFromSemanticResults | sql_generator/core/schema_manager.py:326-353 | the two loops compute exactly the specified table scores |
| SchemaSelection.ColumnStep | sql_generator/core/schema_manager.py:332-340 | one column hit: a new table gets its confidence, a known one the larger of the two |
| SchemaSelection.TableStep | sql_generator/core/schema_manager.py:343-351 | one table hit: a new table gets its confidence, a known one the mean of the two |
| SchemaSelection.ColumnPassMeaning | sql_generator/core/schema_manager.py:331-340 | after the column loop the keys are the tables column hits name, and each score is the highest confidence among that table's hits, attained by one of them |
| SchemaSelection.ColumnPassKeys | sql_generator/core/schema_manager.py:331-340 | a table is scored after the column loop iff some column hit names it |
| SchemaSelection.ColumnPassBound | sql_generator/core/schema_manager.py:339-340 | each score after the column loop is at least the confidence of every hit naming that table |
| SchemaSelection.ColumnPassAttained | sql_generator/core/schema_manager.py:335-340 | each score after the column loop is the confidence of some hit naming that table |
| SchemaSelection.TablePassMeaning | sql_generator/core/schema_manager.py:342-351 | the table loop adds the tables that table hits name and leaves every table no table hit names unchanged |
| SchemaSelection.ExtractedScores | sql_generator/core/schema_manager.py:326-353 | the scored tables are exactly those some hit names; a table no table hit names scores the best confidence of its column hits |
| SchemaSelection.TableHitAverages | sql_generator/core/schema_manager.py:346-351 | one more table hit averages its confidence into an existing entry or creates it, and changes no other table |
| SchemaSelection.AveragingLowers | sql_generator/core/schema_manager.py:339-351 | a weaker table hit lowers the score a strong column hit gave: scores are averaged, not maximised |
| SchemaSelection.ColumnPassOrder | sql_generator/core/schema_manager.py:331-340 | the dict keys after the column loop are in the order tables are first named |
| SchemaSelection.TablePassOrder | sql_generator/core/schema_manager.py:342-351 | the dict keys after both loops are in first-naming order over the column hits followed by the table hits |
| SchemaSelection.ExtractOrder | sql_generator/core/schema_manager.py:326-353 | the tables appear in the order in which a hit, column hits first, first names them |
| SchemaSelection.ApplyContextFiltering | sql_generator/core/schema_manager.py:365-397 | the result satisfies the context-filtering specification: kept tables first, in order, boosted when suggested, then the other suggested, available tables at the minimum confidence |
| SchemaSelection.KeepPass | sql_generator/core/schema_manager.py:372-388 | the kept dict is well formed |
| SchemaSelection.KeepPassMeaning | sql_generator/core/schema_manager.py:372-388 | the first loop keeps, in order, exactly the tables neither excluded nor unavailable, each suggested one raised by 0.1 but capped at 1.0 |
| SchemaSelection.KeepScored | sql_generator/core/schema_manager.py:372-388 | the first loop's dict holds exactly the kept scored tables in their order with their boosted scores |
| SchemaSelection.KeepStep | sql_generator/core/schema_manager.py:373-388 | one scored table: skipped when excluded or unavailable, else kept with its boost |
| SchemaSelection.AddSuggested | sql_generator/core/schema_manager.py:390-397 | the second loop adds each suggested, available table not yet kept at the minimum confidence, giving the specified result |
| SchemaSelection.ContextRules | sql_generator/core/schema_manager.py:365-397 | per table: an excluded, unsuggested table is dropped; a kept suggested table is boosted; a suggested available table not otherwise kept enters at the minimum confidence; without a restriction no non-excluded scored table is dropped; a non-available table never appears |
| SchemaSelection.DistributeColumnsAcrossTables | sql_generator/core/schema_manager.py:421-442 | the columns accepted are those of the specified greedy walk over the columns sorted by descending confidence |
| SchemaSelection.DistributeStep | sql_generator/core/schema_manager.py:435-440 | one sorted column: accepted and counted when its table is selected and under the cap |
| SchemaSelection.DistributeCount | sql_generator/core/schema_manager.py:426-440 | every selected table gets min(cap, its candidates) columns and no other table any; no table exceeds the cap and none is crowded out |
| SchemaSelection.DistributeSound | sql_generator/core/schema_manager.py:435-440 | accepted columns are input columns (with multiplicity) of selected tables |
| SchemaSelection.DistributeSorted | sql_generator/core/schema_manager.py:428-440 | the walk keeps the descending confidence order |
| SchemaSelection.ConfidenceMapMeaning | sql_generator/core/schema_manager.py:303-306 | every selected column's "table.column" key is in the map, and every key holds the confidence of a column with that key |
| SchemaSelection.SelectColumns | sql_generator/core/schema_manager.py:266-324 | the selected columns are the specified ones, the confidence map is built from them and each table's distribution is its number of selected columns |
| SchemaSelection.CountByTable | sql_generator/core/schema_manager.py:308-312 | the table_distribution loop counts, for every table with a selected column, exactly its selected columns |
| SchemaSelection.SelectedColumnsSound | sql_generator/core/schema_manager.py:282-300 | the selected columns are input columns of selected tables that reach the threshold, highest confidence first |
| SchemaSelection.SelectedColumnsBudget | sql_generator/core/schema_manager.py:291-300 | each selected table gets min(cap, its candidates) columns, no other table any, and none more than the cap |
| SchemaSelection.SelectedConfidences | sql_generator/core/schema_manager.py:284-306 | every confidence in the "table.column" map reaches the threshold |
| SchemaSelection.DirectPairsMeaning | sql_generator/core/schema_manager.py:453-460 | a pair is reported exactly when an earlier selected table is linked to a later one |
| SchemaSelection.InferTableRelationships | sql_generator/core/schema_manager.py:444-473 | the two loops compute exactly the specified relationships, or the unpacking error |
| SchemaSelection.AddAllRequiredErr | sql_generator/core/schema_manager.py:463-466 | once one required string fails to unpack, the whole call fails with that error |
| SchemaSelection.AddAllRequiredMeaning | sql_generator/core/schema_manager.py:462-471 | the loop fails exactly when some string holding the arrow does not split into two parts; otherwise it appends only pairs of selected tables that are new in both orders |
| SchemaSelection.AddRequiredMeaning | sql_generator/core/schema_manager.py:464-471 | one required string: fails iff it holds the arrow but does not split into two parts; otherwise it appends at most a new pair of selected tables |
| SchemaSelection.InferredRelationshipsMeaning | sql_generator/core/schema_manager.py:444-473 | the relationships start with the direct pairs and continue with new pairs of selected tables; they fail iff a required string is malformed; with no required strings they are exactly the direct pairs |
| SchemaSelection.NewSchemaManager | sql_generator/core/schema_manager.py:62-84 | the settings are kept, a missing analyzer is replaced by the default one and the graph is built from the table patterns |
| SchemaSelection.PutAll | sql_generator/core/schema_manager.py:243-246 | setting the bridge scores keeps the dict well formed |
| SchemaSelection.PutAllMeaning | sql_generator/core/schema_manager.py:242-246 | the existing key order stays as a prefix, the bridges are added with the minimum confidence and no other score changes |
| SchemaSelection.AssignBridgeConfidence | sql_generator/core/schema_manager.py:242-246 | the final scores are the filtered scores with every bridge set to the minimum confidence |
| SchemaSelection.SelectTables | sql_generator/core/schema_manager.py:199-264 | the corrected select_tables: the query is analysed, hits are scored and thresholded, context filtering applies when enabled, completion starts from the first max_tables keys; with completion on, every pair of those tables is joined within the selected tables by a path no longer than any path of at most the search depth between them, and each bridge is a new table lying inside a shortest path between two of them; bridges get the minimum confidence, and the relationships are the linked pairs of the completed list; empty hits and no suggestions select nothing |
| SchemaSelection.EmptySelection | sql_generator/core/schema_manager.py:214-237 | without hits or suggestions nothing survives filtering |
| SchemaSelection.BindArguments | sql_generator/core/schema_manager.py:252-255 | binding positional arguments succeeds iff their number equals the number of parameters |
| SchemaSelection.SelectTablesAsWritten | sql_generator/core/schema_manager.py:252-255 | as written, select_tables always raises: the reasoning helper is passed seven positional arguments for eight parameters |
| CompletionScenario.ChainDeclared | simple_test.py:11-36 | the scenario's table patterns declare six pairs, in configuration order |
| CompletionScenario.ChainTargets | simple_test.py:16-34 | each "table.column" relationship string of the scenario names its table |
| CompletionScenario.LinkPresent | sql_generator/core/schema_manager.py:41-49 | adding an edge already present in both directions changes nothing |
| CompletionScenario.LinkEmpty | sql_generator/core/schema_manager.py:41-49 | the first relationship of an empty graph is one edge in both directions |
| CompletionScenario.ChainLinks | simple_test.py:11-36 | the six declared pairs build the chain cust - ord_hdr - ord_ln - prd_mstr |
| CompletionScenario.ChainLinksFirst | simple_test.py:14-22 | the first three pairs link cust - ord_hdr and ord_hdr - ord_ln |
| CompletionScenario.ChainLinksLast | simple_test.py:26-34 | the last three pairs add ord_ln - prd_mstr |
| CompletionScenario.LinksPrefix | sql_generator/core/schema_manager.py:99-120 | one more declared pair adds one link |
| CompletionScenario.LinkSecond | simple_test.py:22 | linking ord_hdr - ord_ln onto cust - ord_hdr |
| CompletionScenario.LinkThird | simple_test.py:28 | linking ord_ln - prd_mstr completes the chain |
| CompletionScenario.ChainGraph | simple_test.py:11-36 | building the graph of the scenario's configuration yields the chain |
| CompletionScenario.ChainPathsPass | simple_test.py:62-64 | every path from cust to prd_mstr passes through ord_hdr and ord_ln |
| CompletionScenario.PathStaysAt | sql_generator/core/schema_manager.py:152-159 | a path starting in a neighbour-closed set of tables has each table in it |
| CompletionScenario.PathStays | sql_generator/core/schema_manager.py:152-159 | a path starting in a neighbour-closed set of tables stays inside it |
| CompletionScenario.ChainResult | simple_test.py:66-80 | the completion's promises on the chain pin the lists to the four tables and the two bridges, in order |
| CompletionScenario.ChainJoined | simple_test.py:66-80 | joining cust and prd_mstr within a set of tables puts ord_hdr and ord_ln in it |
| CompletionScenario.ChainBridge | sql_generator/core/schema_manager.py:187-190 | a bridge of the chain is one of its four tables |
| CompletionScenario.ChainCompletion | direct_test.py:45-56 | completing [cust, prd_mstr] over the chain adds exactly the bridges ord_hdr and ord_ln, and the completed list is the four tables in order |
| CompletionScenario.ChainOutcome | simple_test.py:66-80 | what the completion promises on the chain and [cust, prd_mstr] determines both lists |
| CompletionScenario.ChainAdjacency | direct_test.py:31-43 | the schema manager's graph for the scenario's configuration is the chain |
| CompletionScenario.ScenarioNames | simple_test.py:14-34 | the four names are distinct, dot-free and in increasing string order |
| CompletionScenario.CustomerProductCompletion | simple_test.py:66-80 | [cust, prd_mstr] completes to [cust, ord_hdr, ord_ln, prd_mstr] with bridges [ord_hdr, ord_ln], as the test expects |
| QueryAnalysis.AssignKeys | sql_generator/core/query_analyzer.py:76 | storing a pattern under its key keeps the key list when the key is already there, and appends the key otherwise |
| QueryAnalysis.AssignMembers | sql_generator/core/query_analyzer.py:76 | storing a pattern keeps it and every pattern stored under another key, and adds nothing else |
| QueryAnalysis.KeyedKeys | sql_generator/core/query_analyzer.py:73-81 | the keys of a loaded pattern dict are the configured keys without repeats, in order of first occurrence |
| QueryAnalysis.KeyedDistinct | sql_generator/core/query_analyzer.py:73-81 | no two loaded patterns share a table name (or a pattern id) |
| QueryAnalysis.KeyedFrom | sql_generator/core/query_analyzer.py:73-81 | every loaded pattern is a configured one |
| QueryAnalysis.KeyedLast | sql_generator/core/query_analyzer.py:73-81 | the pattern configured last for a key is the one that is loaded |
| QueryAnalysis.LoadPatterns | sql_generator/core/query_analyzer.py:73-84 | both pattern dicts are filled by keyed assignment in configuration order, so a later pattern for the same key replaces the earlier one; the result has one pattern per key and the given domain configuration |
| QueryAnalysis.DefaultAnalyzer | sql_generator/core/query_analyzer.py:90-109 | the default configuration has one keyword-less pattern and no table patterns |
| QueryAnalysis.HitCount | sql_generator/core/query_analyzer.py:163 | the hit count never exceeds the keywords; it is 0 iff no keyword occurs and equals their number iff all occur |
| QueryAnalysis.PatternConfidence | sql_generator/core/query_analyzer.py:158-166 | a pattern without keywords scores 0.0; every score is at most 1.0, and non-negative for a non-negative boost |
| QueryAnalysis.RatioBounds | sql_generator/core/query_analyzer.py:164 | the hit ratio lies in [0, 1], with 1 when all keywords hit and 0 when none does |
| QueryAnalysis.PatternConfidenceRatio | sql_generator/core/query_analyzer.py:158-166 | for a pattern with keywords the score is min(hits / len(keywords) + boost, 1.0) |
| QueryAnalysis.PatternConfidenceExtremes | sql_generator/core/query_analyzer.py:163-166 | all keywords present with a non-negative boost give 1.0; none present gives min(boost, 1.0) |
| QueryAnalysis.BestPatternUnique | sql_generator/core/query_analyzer.py:127-131 | the kept pattern is unique: ties go to the earlier pattern |
| QueryAnalysis.WordRun | sql_generator/core/query_analyzer.py:185 | the leading run of word characters is maximal |
| QueryAnalysis.Tokens | sql_generator/core/query_analyzer.py:185 | every \w+ token is a non-empty run of word characters |
| QueryAnalysis.WordRunFilter | sql_generator/core/query_analyzer.py:185 | the word characters of a text are its leading run followed by the word characters of the rest |
| QueryAnalysis.TokensCoverWordChars | sql_generator/core/query_analyzer.py:185 | the tokens, joined, are exactly the word characters of the text in order |
| QueryAnalysis.ExtractKeywords | sql_generator/core/query_analyzer.py:182-186 | the keywords are word-character tokens longer than two characters, and every such token is among them |
| QueryAnalysis.InferRelationships | sql_generator/core/query_analyzer.py:188-197 | relationship inference always returns [] |
| QueryAnalysis.ChooseBestPattern | sql_generator/core/query_analyzer.py:124-131 | no pattern is kept iff none scores above 0 (then the confidence is 0.0); otherwise the kept pattern scores above 0, above every earlier pattern and at least every later one, and its score is the confidence |
| QueryAnalysis.Consider | sql_generator/core/query_analyzer.py:128-131 | one pass replaces the best pattern only on a strictly higher score |
| QueryAnalysis.PatternSetsStep | sql_generator/core/query_analyzer.py:143-147 | one more table pattern suggests its table when it matches, else excludes it when its exclusion terms are non-empty and all absent |
| QueryAnalysis.ApplyTablePatterns | sql_generator/core/query_analyzer.py:143-147 | the loop adds exactly the tables of matching patterns to suggested and, of the others, those with non-empty and absent exclusion terms to excluded |
| QueryAnalysis.TablePatternsDisjoint | sql_generator/core/query_analyzer.py:143-147 | with one pattern per table name, no table is both suggested and excluded by the table patterns |
| QueryAnalysis.LastTablePatternDecides | sql_generator/core/query_analyzer.py:73-147 | after loading, a table is suggested iff the pattern configured last for it matches, and excluded iff that pattern does not match and its exclusion terms are non-empty and all absent |
| QueryAnalysis.AnalyzeQuery | sql_generator/core/query_analyzer.py:111-156 | for an analyzer with one pattern per key, the context has the extracted keywords, no relationships and a confidence in [0, 1]; without a positive pattern the type is 'generic' with confidence 0; otherwise type, confidence, suggested and excluded tables come from the best pattern plus the table patterns |
| QueryAnalysis.AnalyzeWithDefaults | sql_generator/core/query_analyzer.py:90-156 | under the default configuration every query is 'generic' with confidence 0 and no suggested, excluded or required items |
| ScoreRanking.NormalizeScore | sql_generator/main.py:213-249 | the confidence always lies in [0, 100]; any score <= 0 gives 0 and any score above 1.0 gives 100 |
| ScoreRanking.NormalizeScoreAnchors | sql_generator/main.py:216-249 | the band end-points: 0 -> 0, 0.2 -> 10, 0.4 -> 40, 0.6 -> 70, 0.8 -> 90, 1.0 -> 100 |
| ScoreRanking.NormalizeScoreMonotoneContinuous | sql_generator/main.py:216-249 | the map is non-decreasing and rises at most 150 points per unit of score, so the bands meet without jumps |
| ScoreRanking.Band | sql_generator/main.py:232-249 | every score falls in one of the six branches |
| ScoreRanking.WithinBand | sql_generator/main.py:232-249 | inside one band, and up to its end-points, the map is non-decreasing with slope at most 150 |
| ScoreRanking.Kept | sql_generator/main.py:272-284 | the kept results are annotated input results, all reaching min_confidence, and every input result reaching it is kept |
| ScoreRanking.FilterAndRankResults | sql_generator/main.py:252-302 | all_filtered is the kept results and high, medium and low are the kept results of confidence >= 70, in [30, 70) and < 30, each sorted by confidence, highest first (stable) |
| ScoreRanking.FilterPartition | sql_generator/main.py:286-292 | the three buckets together hold exactly the kept results |
| ScoreRanking.PartitionStep | sql_generator/main.py:286-292 | each result lands in exactly one bucket |
| ScoreRanking.BucketOf | sql_generator/main.py:286-292 | a result joins a bucket exactly when it satisfies that bucket's test |
| ScoreRanking.BucketsPartition | sql_generator/main.py:286-296 | after sorting, the three buckets still hold exactly the sorted kept results |
| ScoreRanking.SortedFilterSatisfies | sql_generator/main.py:286-296 | every sorted bucket holds only results of its band |
| ScoreRanking.RankingProperties | sql_generator/main.py:263-296 | every kept result reaches min_confidence, the buckets partition the kept results, each holds only its band, and an empty input gives empty lists |
| ScoreRanking.BasicTableSelection | sql_generator/main.py:666-690 | the fallback selector computes the best scores, sorts them highest first, cuts to max_tables and then drops scores below 0.15 |
| ScoreRanking.DistinctMapFilter | sql_generator/main.py:690 | filtering a list with distinct keys keeps them distinct |
| ScoreRanking.TopItemsDistinct | sql_generator/main.py:689-690 | the selected tables are distinct |
| ScoreRanking.TopItemsSorted | sql_generator/main.py:689-690 | the selected items are in non-increasing score order |
| ScoreRanking.ItemsMember | sql_generator/main.py:689 | every item of the dict is a key with its own score |
| ScoreRanking.TopItemsMember | sql_generator/main.py:689-690 | every selected item is an item of the dict |
| ScoreRanking.TopItemsEntries | sql_generator/main.py:689-690 | every selected item is a table with its best score, and that score is at least 0.15 |
| ScoreRanking.BasicSelectionProperties | sql_generator/main.py:666-690 | at most max_tables distinct tables, each with best score >= 0.15, in non-increasing order of best score; a table scoring >= 0.15 is left out only when the result already holds max_tables tables (the cut is full), each scoring at least as much |
| ScoreRanking.TopItemsComplete | sql_generator/main.py:689-690 | an item scoring >= 0.15 that is not selected was cut: the selection has the full cut length, shorter than the table list, and every selected item scores at least as much |
| SchemaSearch.DistanceScore | sql_generator/schema/schema_searcher.py:171-179 | the score is never negative: it is 1 - distance when that is non-negative (values above 1 stay), 0 when it is negative, and 0 for a missing distance |
| SchemaSearch.Zip | sql_generator/schema/schema_searcher.py:170 | zip() stops at the shortest list and pairs entries by position |
| SchemaSearch.Rows | sql_generator/schema/schema_searcher.py:166-168 | reading the lists raises IndexError exactly when a metadatas or distances key is present with an empty outer list (the defaults cover missing keys) |
| SchemaSearch.ProcessCollectionResults | sql_generator/schema/schema_searcher.py:153-198 | the loop returns what the processing definition gives |
| SchemaSearch.KeepRow | sql_generator/schema/schema_searcher.py:170-196 | one pass scores the row, skips it below the threshold and otherwise appends its record |
| SchemaSearch.KeptStep | sql_generator/schema/schema_searcher.py:181-196 | one more row adds its record, ranked by its 1-based position, exactly when it passes the threshold |
| SchemaSearch.KeptSound | sql_generator/schema/schema_searcher.py:170-196 | each kept record is the record of the passing row that its rank names |
| SchemaSearch.KeptRanks | sql_generator/schema/schema_searcher.py:170-189 | ranks never exceed the rows read and strictly increase along the output, even where rows were dropped |
| SchemaSearch.KeptComplete | sql_generator/schema/schema_searcher.py:181-196 | every row that passes the threshold is kept |
| SchemaSearch.ProcessedProperties | sql_generator/schema/schema_searcher.py:161-198 | no documents gives []; otherwise every record carries the collection type and a rank >= 1, has score and distance exactly when scores are requested, never has a negative score nor one below a set threshold, and ranks strictly increase |
| SchemaSearch.ProcessedRows | sql_generator/schema/schema_searcher.py:161-198 | with documents and readable lists the output is exactly the records of the passing rows, each tagged with its 1-based position |
| SchemaSearch.KeptFacts | sql_generator/schema/schema_searcher.py:170-196 | the per-record facts of the processed output, stated on the zipped rows |
| SchemaSearch.Search | sql_generator/schema/schema_searcher.py:94-137 | search gathers each present collection's processed hits in order, skipping missing collections and those whose processing raises, then ranks them |
| SchemaSearch.Gather | sql_generator/schema/schema_searcher.py:101-128 | one pass appends the hits of a present collection whose processing succeeds |
| SchemaSearch.RankedProperties | sql_generator/schema/schema_searcher.py:130-134 | the final list has at most n_results hits (exactly that many when enough were gathered), all gathered ones, sorted by score descending when scores are requested and in gathering order otherwise |
| SchemaSearch.GatheredFrom | sql_generator/schema/schema_searcher.py:101-124 | every gathered hit comes from a present collection whose processing succeeded, and carries that collection's name |
| Hits.BestScores | simple_table_selector.py:62-80 | the per-table scores form a well-formed insertion-ordered dict |
| Hits.BestScoresMeaning | simple_table_selector.py:62-80 | the keys are exactly the tables some hit names with a non-empty table; each score is at least 0, at least every hit score of that table, and when non-zero equal to one of them |
| Hits.BestScoresKeys | simple_table_selector.py:67-78 | the keys are exactly the tables some hit names |
| Hits.BestScoresBound | simple_table_selector.py:67-78 | each score is at least 0 and at least the score of every hit naming the table |
| Hits.BestScoresNonneg | simple_table_selector.py:64-70 | the defaultdict starts each entry at 0.0, so no score is negative |
| Hits.BestScoresCovers | simple_table_selector.py:70-71 | a hit naming a table keeps that table's score at least its own |
| Hits.BestScoresAttained | simple_table_selector.py:70-71 | a non-zero score is the score of some hit naming the table |
| Hits.BestScoresOrder | simple_table_selector.py:62-80 | the keys appear in the order in which tables are first named |
| Hits.ComputeBestScores | simple_table_selector.py:62-80 | the two loops (column hits, then table hits) compute the best scores of all hits in that order |
| Hits.Visit | simple_table_selector.py:68-71 | one loop step reads the entry (creating it at 0.0) and raises it to the hit's score |
| Hits.FilterByConfidence | simple_table_selector.py:82-89 | keeps exactly the entries whose score reaches the threshold, with their scores, in their original order |
| SimpleSelection.DefaultRules | simple_table_selector.py:26-30 | the built-in bridge rules form a well-formed dict |
| SimpleSelection.NewSelector | simple_table_selector.py:19-30 | given non-empty rules are kept; None or an empty dict gives the built-in rules |
| SimpleSelection.RankedItemsSound | simple_table_selector.py:91-119 | every ranked item is an entry of the score dict, with its score, outside the query's exclusions |
| SimpleSelection.RankedItemsComplete | simple_table_selector.py:91-119 | every scored table outside the exclusions is listed |
| SimpleSelection.QueryFilteringDistinct | simple_table_selector.py:96-117 | no table is listed twice |
| SimpleSelection.QueryFilteringMeaning | simple_table_selector.py:91-119 | the filtered list holds each scored table outside the exclusions of the first matching keyword group (employee, then customer, then product) exactly once, in non-increasing score order |
| SimpleSelection.AddBridgeTables | simple_table_selector.py:121-137 | the loops compute the bridged list of the rules in rule order |
| SimpleSelection.AppendNewMeaning | simple_table_selector.py:133-135 | appending only absent bridges keeps the list as a prefix, adds exactly the bridges and introduces no duplicate |
| SimpleSelection.BridgedMeaning | simple_table_selector.py:121-137 | the relevant tables stay a prefix; the added tables are exactly the bridges of the rules whose tables are all relevant; no duplicate is introduced |
| SimpleSelection.SelectTables | simple_table_selector.py:32-60 | select_tables is extraction, the 0.15 floor, query filtering, bridging and then the cut to max_tables |
| SimpleSelection.RelevantMeaning | simple_table_selector.py:47-54 | steps 1 to 3 keep exactly the non-excluded tables whose best score is at least 0.15, once each, best first |
| SimpleSelection.BridgedPrefix | simple_table_selector.py:56-60 | bridging then truncation gives at most max_tables distinct tables, a prefix of the relevant tables followed by bridges of rules whose tables are all relevant |
| SimpleSelection.SelectionProperties | simple_table_selector.py:32-60 | the selection has at most max_tables distinct tables and is a prefix of relevant ++ bridges; each added table is a bridge of a rule whose tables are all relevant |
| SimpleSelectionSamples.RuleKeyTables | simple_table_selector.py:129 | a rule key a+b names exactly the tables a and b |
| SimpleSelectionSamples.TwoRulesBridged | simple_table_selector.py:128-135 | two rules over the same pair with the same bridges fire together, exactly when both tables are relevant |
| SimpleSelectionSamples.DefaultBridged | simple_table_selector.py:26-30 | the built-in rules fire exactly when cust and prd_mstr are both relevant |
| SimpleSelectionSamples.BestScoresWithin | simple_table_selector.py:62-80 | the scored tables are among those the hits name |
| SimpleSelectionSamples.BestScoresAbove | simple_table_selector.py:70-78 | a table's best score is at least the score of any hit naming it |
| SimpleSelectionSamples.EmployeeScores | simple_table_selector.py:202-215 | the employee sample scores only emp_mstr, cust and wh_mstr, with emp_mstr above the floor |
| SimpleSelectionSamples.EmployeeRelevant | simple_table_selector.py:202-218 | for an employee question the exclusions leave emp_mstr as the only relevant table |
| SimpleSelectionSamples.EmployeeSample | simple_table_selector.py:202-218 | "how many employees with name Michael" (any question containing an employee word) selects exactly [emp_mstr] |
| SimpleSelectionSamples.SingleRelevant | simple_table_selector.py:91-119 | when every other scored table is excluded and x is kept, x is the only relevant table |
| SimpleSelectionSamples.ScoreStep | simple_table_selector.py:68-71 | one more hit naming a table raises that table's entry to max(entry or 0.0, score) |
| SimpleSelectionSamples.LowerStep | simple_table_selector.py:70 | a lower hit on a table already scored changes nothing |
| SimpleSelectionSamples.TwoTableScores | simple_table_selector.py:62-80 | a column hit on each of two tables followed by lower table hits leaves the column scores |
| SimpleSelectionSamples.PurchaseScores | simple_table_selector.py:221-230 | the purchase sample scores cust at 0.340 and prd_mstr at 0.302 |
| SimpleSelectionSamples.PairRelevant | simple_table_selector.py:91-119 | two kept tables with different scores are listed best first |
| SimpleSelectionSamples.ProductExclusions | simple_table_selector.py:102-111 | a product question that is neither an employee nor a customer question excludes emp_mstr, wh_mstr and mkt_cmp, keeping cust and prd_mstr |
| SimpleSelectionSamples.PurchaseRelevant | simple_table_selector.py:221-232 | for such a question the relevant tables are [cust, prd_mstr] |
| SimpleSelectionSamples.CustomerProductBridged | simple_table_selector.py:121-137 | with relevant tables [cust, prd_mstr] the built-in rules append ord_hdr and ord_ln once, and all four fit under max_tables = 4 |
| SimpleSelectionSamples.PurchaseSample | simple_table_selector.py:221-232 | "how many products purchased by Rebecca" (any question with a product word and no employee or customer word) selects exactly [cust, prd_mstr, ord_hdr, ord_ln] |
| VectorStorage.SafeStr | sql_generator/schema/vector_store.py:75-78 | None becomes the empty string, any other value its str() |
| VectorStorage.RecordProblem | sql_generator/schema/vector_store.py:86-94 | a record raises an error exactly when it lacks 'embedding' or 'text' or its embedding is not array-like (a string, a number, None) |
| VectorStorage.ValidateRecords | sql_generator/schema/vector_store.py:80-94 | the loop raises what the validation definition gives: the empty-list error, else the first bad record's error |
| VectorStorage.FirstProblemMeaning | sql_generator/schema/vector_store.py:85-94 | the scan reports nothing iff every remaining record is well-formed, and otherwise reports the first bad record |
| VectorStorage.FirstProblemNone | sql_generator/schema/vector_store.py:85-94 | the scan reports nothing iff every remaining record is well-formed |
| VectorStorage.FirstProblemAt | sql_generator/schema/vector_store.py:85-94 | a reported problem belongs to a bad record all of whose predecessors are well-formed |
| VectorStorage.ValidationMeaning | sql_generator/schema/vector_store.py:80-94 | an empty list is rejected; otherwise validation succeeds iff every record is well-formed, and a failure names the first bad record |
| VectorStorage.CandidateInjective | sql_generator/schema/vector_store.py:113 | different counters give different candidate ids |
| VectorStorage.IdChoiceUnique | sql_generator/schema/vector_store.py:109-114 | the renaming rule (the base id when free, else base_k for the smallest free k >= 1) determines the id |
| VectorStorage.FreshCandidate | sql_generator/schema/vector_store.py:111-114 | the newest candidate differs from the base id and from every earlier candidate |
| VectorStorage.SearchStep | sql_generator/schema/vector_store.py:112-114 | one round of the renaming loop keeps its state and adds one taken id to those tried, so the loop ends |
| VectorStorage.UniqueId | sql_generator/schema/vector_store.py:109-114 | the while loop returns the id the renaming rule fixes, which is not yet issued |
| VectorStorage.ExtraValue | sql_generator/schema/vector_store.py:138-141 | an extra metadata value is always a primitive: kept when primitive, stringified otherwise |
| VectorStorage.BuildMetadata | sql_generator/schema/vector_store.py:128-141 | the metadata loop builds the record's metadata definition |
| VectorStorage.AddExtrasMeaning | sql_generator/schema/vector_store.py:135-141 | the extra keys are exactly the non-reserved keys with non-None values, each holding its converted value; other entries are kept |
| VectorStorage.RecordMetadataMeaning | sql_generator/schema/vector_store.py:128-141 | the metadata holds table, column and level plus every extra key with a non-None value; every value is primitive; level is "column" iff the record has a non-None column, unless an extra 'level' overrides it |
| VectorStorage.EmbeddingList | sql_generator/schema/vector_store.py:119-123 | list(embedding) of a validated embedding: a list's items, or each key of a dict once, as a string |
| VectorStorage.PrepareData | sql_generator/schema/vector_store.py:96-150 | four lists as long as the records, entry i built from record i (the embedding as list() gives it: a list's items, a dict's keys); each id follows the renaming rule against the earlier ids, so the ids are pairwise distinct |
| VectorStorage.StoreRecords | sql_generator/schema/vector_store.py:152-199 | store_records raises the validation error, else returns the number of records |
| VectorStorage.StoreEmbeddedSchema | sql_generator/schema/vector_store.py:287-322 | the columns are stored under prefix_columns and then the tables under prefix_tables, each only when present; the first failure stops the rest; the counts are exactly those of the present keys |
| VectorStorage.CollectionNamesDiffer | sql_generator/schema/vector_store.py:307-315 | the two collection names never coincide |
| SemanticCorpus.CollapseSpaces | sql_generator/schema/semantic_schema.py:23 | replacing each whitespace run by one space never lengthens the text, empties only empty text and keeps whether it starts with whitespace |
| SemanticCorpus.CollapsePlain | sql_generator/schema/semantic_schema.py:23 | after the substitution the only whitespace characters are plain spaces |
| SemanticCorpus.CollapseSingle | sql_generator/schema/semantic_schema.py:23 | after the substitution no two whitespace characters are adjacent |
| SemanticCorpus.CollapseLower | sql_generator/schema/semantic_schema.py:23 | the substitution keeps lower-case text lower-case |
| SemanticCorpus.CollapseLast | sql_generator/schema/semantic_schema.py:23 | the result ends in whitespace exactly when the text does |
| SemanticCorpus.CollapseNoop | sql_generator/schema/semantic_schema.py:23 | text whose whitespace is already single plain spaces is unchanged |
| SemanticCorpus.NormalizeTrimmed | sql_generator/schema/semantic_schema.py:20-23 | normalize leaves no whitespace at either end |
| SemanticCorpus.NormalizeShape | sql_generator/schema/semantic_schema.py:20-23 | normalize's output is lower-case, trimmed, and its only whitespace is single plain spaces |
| SemanticCorpus.NormalizeIdempotent | sql_generator/schema/semantic_schema.py:20-23 | normalising twice is normalising once |
| SemanticCorpus.TableColumnDocs | sql_generator/schema/semantic_schema.py:32-48 | one document per column key of a table |
| SemanticCorpus.TableColumnDocsAt | sql_generator/schema/semantic_schema.py:32-48 | the j-th document of a table is that of its j-th column key |
| SemanticCorpus.DocLists | sql_generator/schema/semantic_schema.py:31-48 | one document list per table, each the table's column documents in column order |
| SemanticCorpus.ColumnCorpusLength | sql_generator/schema/semantic_schema.py:30-48 | the column corpus has one entry per (table, column key) |
| SemanticCorpus.ColumnCorpusAt | sql_generator/schema/semantic_schema.py:30-48 | the j-th column of table i sits right after the columns of the earlier tables, and carries that table's name, that key, its metadata and the normalised phrase text |
| SemanticCorpus.ColumnValues | sql_generator/schema/semantic_schema.py:64-65 | table.columns.values() lists the column records in key order |
| SemanticCorpus.TableCorpus | sql_generator/schema/semantic_schema.py:58-79 | the table corpus has one document per table |
| SemanticCorpus.TableCorpusAt | sql_generator/schema/semantic_schema.py:58-79 | the i-th document is that of the i-th table |
| SemanticCorpus.TableDocSources | sql_generator/schema/semantic_schema.py:60-79 | a table's text joins only non-empty phrases, which include its non-empty display name, description, name and aliases; it carries the table name, and its alias list is [] when the table has none |
| SemanticCorpus.TableColumnDocuments | sql_generator/schema/semantic_schema.py:32-48 | the inner loop builds the table's column documents in column order |
| SemanticCorpus.ColumnDocuments | sql_generator/schema/semantic_schema.py:30-49 | the outer loop builds the whole column corpus table by table |
| SemanticCorpus.TableDocument | sql_generator/schema/semantic_schema.py:60-79 | the loop body builds the table's document |
| SemanticCorpus.TableDocuments | sql_generator/schema/semantic_schema.py:58-80 | the loop builds one document per table, in schema order |
| SemanticCorpus.SemanticSchema.constructor | sql_generator/schema/semantic_schema.py:14-18 | a new object has no memoised corpora and normalises with normalize |
| SemanticCorpus.SemanticSchema.BuildColumnCorpus | sql_generator/schema/semantic_schema.py:25-51 | returns the column corpus of the schema and memoises it; a memoised corpus is returned unchanged |
| SemanticCorpus.SemanticSchema.BuildTableCorpus | sql_generator/schema/semantic_schema.py:53-82 | returns the table corpus of the schema and memoises it; a memoised corpus is returned unchanged |
| SemanticCorpus.SemanticSchema.PrepareSemanticData | sql_generator/schema/semantic_schema.py:84-89 | the column corpus under columns and the table corpus under tables, both memoised afterwards |
| SemanticCorpus.BuildTwice | sql_generator/schema/semantic_schema.py:27-51 | a second build_column_corpus returns the same corpus as the first |
| SchemaLoading.TableMap | sql_generator/schema/schema_loader.py:47 | the name map is a well-formed insertion-ordered dict |
| SchemaLoading.TableMapKeys | sql_generator/schema/schema_loader.py:47 | the name map's keys are exactly the table names |
| SchemaLoading.TableMapNamed | sql_generator/schema/schema_loader.py:47 | a string is a key of the name map iff some table has that name |
| SchemaLoading.TableMapValues | sql_generator/schema/schema_loader.py:47 | each name maps to the last table of that name |
| SchemaLoading.TableMapValue | sql_generator/schema/schema_loader.py:47 | the same, for one name, with the index of that last table |
| SchemaLoading.LastIndex | sql_generator/schema/schema_loader.py:47 | the index of the last table of a name lies within the schema, or is -1 |
| SchemaLoading.LastIndexNamed | sql_generator/schema/schema_loader.py:47 | a non-negative index is that of the last table of the name |
| SchemaLoading.TableMapAt | sql_generator/schema/schema_loader.py:47 | a key of the name map holds the table at that last index |
| SchemaLoading.TableMapStep | sql_generator/schema/schema_loader.py:47 | one more table overwrites the entry of its own name only |
| SchemaLoading.TableMapOrder | sql_generator/schema/schema_loader.py:47-59 | with distinct table names the keys are exactly the names in schema order |
| SchemaLoading.TableMapDedup | sql_generator/schema/schema_loader.py:47 | for any schema, the table dictionary's keys are the table names with repeats dropped, each at its first occurrence, since a later table of the same name overwrites the entry in place |
| SchemaLoading.AliasesAddedMeaning | sql_generator/schema/schema_loader.py:54-56 | writing a table's aliases makes each alias map to that table and leaves all other entries as they were |
| SchemaLoading.AliasMapKeys | sql_generator/schema/schema_loader.py:49-56 | a string is a key of the alias map exactly when it is the name or an alias of some table |
| SchemaLoading.AliasMapValues | sql_generator/schema/schema_loader.py:49-56 | each key maps to the last table in schema order that names it: later writes win |
| SchemaLoading.TableColumnMatchesMeaning | sql_generator/schema/schema_loader.py:87-93 | the matches in one table are exactly its columns whose key equals the name or whose aliases contain it |
| SchemaLoading.ColumnMatchesMeaning | sql_generator/schema/schema_loader.py:83-94 | find_column reports exactly the (table, key, column) records whose key or aliases match |
| SchemaLoading.MatchFound | sql_generator/schema/schema_loader.py:83-94 | every reported record is a matching column of some table |
| SchemaLoading.MatchListed | sql_generator/schema/schema_loader.py:83-94 | every matching column of every table is reported |
| SchemaLoading.TableMatchesMeaning | sql_generator/schema/schema_loader.py:96-108 | find_table reports exactly the tables the identifier names (by name or alias), as name, aliases, display name and table |
| SchemaLoading.ScanColumns | sql_generator/schema/schema_loader.py:87-93 | the inner loop of find_column returns the matches of one table in column order |
| SchemaLoading.SchemaLoader.constructor | sql_generator/schema/schema_loader.py:38-56 | the loader holds the validated tables, with the name map and the alias map built from them |
| SchemaLoading.SchemaLoader.ListTables | sql_generator/schema/schema_loader.py:58-59 | list_tables names every table exactly once, in the order of its first occurrence in the schema |
| SchemaLoading.SchemaLoader.GetTable | sql_generator/schema/schema_loader.py:61-63 | get_table is defined exactly for the names and aliases of tables, and returns the last table naming the string |
| SchemaLoading.SchemaLoader.GetTableByNameOnly | sql_generator/schema/schema_loader.py:65-67 | get_table_by_name_only resolves exactly the listed names, to the last table of that name |
| SchemaLoading.SchemaLoader.FindTableByAlias | sql_generator/schema/schema_loader.py:69-74 | find_table_by_alias returns the first table in schema order listing the alias, and None exactly when no table lists it |
| SchemaLoading.SchemaLoader.GetColumns | sql_generator/schema/schema_loader.py:76-79 | get_columns is defined exactly where get_table is and returns that table's columns |
| SchemaLoading.SchemaLoader.FindColumn | sql_generator/schema/schema_loader.py:83-94 | the nested loops return the column matches in schema and column order |
| SchemaLoading.SchemaLoader.FindTable | sql_generator/schema/schema_loader.py:96-108 | the loop returns the table matches in schema order |
| SchemaLoading.SchemaLoader.DescribeTable | sql_generator/schema/schema_loader.py:110-115 | None exactly for an unknown identifier or a table without columns; otherwise every column key, in column order, mapped to its description |
| SchemaLoading.AliasCollision | sql_generator/schema/schema_loader.py:49-74 | when two tables list one alias, get_table returns the second and find_table_by_alias the first |
| PromptGeneration.AggregationType | sql_generator/llm/sql_prompt_generator.py:372-379 | the aggregation type of an analytics query is one of count, sum, average or the default aggregation |
| PromptGeneration.ChooseTemplateCases | sql_generator/llm/sql_prompt_generator.py:367-390 | analytics iff some analytics keyword occurs in the lower-cased query; advanced iff none does and there is more than one table or a complex keyword; basic otherwise |
| PromptGeneration.CountQuery | sql_generator/llm/sql_prompt_generator.py:372-375 | a query containing "count" anywhere, even inside a word, gets the analytics template of type count, whatever the tables |
| PromptGeneration.SumBeforeAverage | sql_generator/llm/sql_prompt_generator.py:374-377 | without "count", a query with "sum" or "total" is of type sum even when it also says "average" |
| PromptGeneration.AverageQuery | sql_generator/llm/sql_prompt_generator.py:374-379 | "average" or "avg" without count, sum or total gives the average type |
| PromptGeneration.SeveralTablesNotBasic | sql_generator/llm/sql_prompt_generator.py:383-390 | more than one selected table never gets the basic template |
| PromptGeneration.FirstEligible | sql_generator/llm/sql_prompt_generator.py:245-248 | the candidate taken is selected and not the table itself, no earlier candidate qualifies, and nothing is taken iff no candidate qualifies |
| PromptGeneration.ForeignKeyMeaning | sql_generator/llm/sql_prompt_generator.py:236-248 | a guessed reference comes from a key ending in _id other than {table}_id, names a selected table other than the table, and is the first of base, base_mstr, base_hdr that qualifies; there is none iff the key is not such a key or no candidate qualifies |
| PromptGeneration.RenderRelationship | sql_generator/llm/sql_prompt_generator.py:247 | a rendered relationship always contains the arrow character |
| PromptGeneration.ColumnForeignKeysSound | sql_generator/llm/sql_prompt_generator.py:215-248 | each relationship of a table belongs to the table, comes from one of its columns and is that column's guess |
| PromptGeneration.OnePerColumn | sql_generator/llm/sql_prompt_generator.py:245-248 | the loop breaks after the first match, so with distinct column keys no column yields two relationships |
| PromptGeneration.ContextTableDict | sql_generator/llm/sql_prompt_generator.py:207-208 | the tables dict built for the context is well formed (keys listed once, in insertion order) |
| PromptGeneration.ContextOf | sql_generator/llm/sql_prompt_generator.py:190-257 | with a loader, the context is always a text of table sections and a well-formed tables dict |
| PromptGeneration.ContextTables | sql_generator/llm/sql_prompt_generator.py:190-208 | a name is in the context's tables iff it is among the selected entries and the loader resolves it, and its entry is that table's columns |
| PromptGeneration.ContextRelationships | sql_generator/llm/sql_prompt_generator.py:190-249 | every relationship comes from a column of a selected table the loader resolves, and is that column's guess |
| PromptGeneration.EarlierRelationship | sql_generator/llm/sql_prompt_generator.py:190-249 | processing one more table keeps every earlier relationship and where it came from |
| PromptGeneration.LastRelationship | sql_generator/llm/sql_prompt_generator.py:215-249 | the relationships the last table adds are guesses for its own columns |
| PromptGeneration.RelationshipShape | sql_generator/llm/sql_prompt_generator.py:236-249 | a guessed relationship joins two different selected tables through a key ending in _id that is not the table's own id |
| PromptGeneration.RelationshipsDefault | sql_generator/llm/sql_prompt_generator.py:307-309 | the advanced prompt shows the "no relationships" default exactly when no relationship was guessed |
| PromptGeneration.ContextDefault | sql_generator/llm/sql_prompt_generator.py:315 | an empty context becomes "General query"; any other context is kept |
| PromptGeneration.PromptFor | sql_generator/llm/sql_prompt_generator.py:265-348 | every template shows the schema text of the context and the user's question; the advanced one has a non-empty context and the default relationships text iff there are no relationships |
| PromptGeneration.SelectedMembers | sql_generator/llm/sql_prompt_generator.py:411-417 | the tables taken from the search results are distinct, and a value is among them iff some result's metadata names it (table_name, else table) with a truthy value |
| PromptGeneration.SelectedFirstNamed | sql_generator/llm/sql_prompt_generator.py:411-417 | every selected table has a result that names it first |
| PromptGeneration.SelectedOrder | sql_generator/llm/sql_prompt_generator.py:411-417 | the selected tables are in the order of the results that first name them |
| PromptGeneration.SelectedErrSticks | sql_generator/llm/sql_prompt_generator.py:412-417 | once one result's metadata is not a dict, the extraction raises whatever follows, and the error prompt is returned |
| PromptGeneration.FirstNamedUnique | sql_generator/llm/sql_prompt_generator.py:415-416 | two results that first name the same table are the same result |
| PromptGeneration.InferTablesAsWritten | sql_generator/llm/sql_prompt_generator.py:466-474 | as written, the inferred list is always empty: a SchemaLoader has no `tables` attribute |
| PromptGeneration.InferTablesMisses | sql_generator/llm/sql_prompt_generator.py:466-474 | as written, a schema table whose name occurs in the query is not inferred, though the corrected inference finds it |
| PromptGeneration.MentionedTablesMembers | sql_generator/llm/sql_prompt_generator.py:464-471 | the inferred tables are exactly the schema's table names whose lower-case form occurs in the lower-cased query |
| PromptGeneration.NamedTablesGetTemplate | sql_generator/llm/sql_prompt_generator.py:410-428 | when some search result names a table, the prompt comes from one of the three templates, never the fallback |
| PromptGeneration.NoTablesFallback | sql_generator/llm/sql_prompt_generator.py:419-445 | without a loader and without search results, the fallback prompt for the query is returned |
| PromptGeneration.SQLPromptGenerator.constructor | sql_generator/llm/sql_prompt_generator.py:62-80 | the generator holds the given loader (or none) and no last prompt |
| PromptGeneration.SQLPromptGenerator.FindReference | sql_generator/llm/sql_prompt_generator.py:236-248 | the candidate loop returns exactly the specified foreign-key guess |
| PromptGeneration.SQLPromptGenerator.TableRelationships | sql_generator/llm/sql_prompt_generator.py:215-248 | the column loop yields the guessed relationships in column order |
| PromptGeneration.SQLPromptGenerator.GetSchemaContext | sql_generator/llm/sql_prompt_generator.py:173-263 | the context is the specified one; without a loader it is the placeholder text with no tables and no relationships |
| PromptGeneration.SQLPromptGenerator.GenerateBasicPrompt | sql_generator/llm/sql_prompt_generator.py:265-285 | the basic template over the schema context of the selected tables |
| PromptGeneration.SQLPromptGenerator.GenerateAdvancedPrompt | sql_generator/llm/sql_prompt_generator.py:287-319 | the advanced template over the schema context, with the relationships and the context text |
| PromptGeneration.SQLPromptGenerator.GenerateAnalyticsPrompt | sql_generator/llm/sql_prompt_generator.py:321-348 | the analytics template of the given aggregation type over the schema context |
| PromptGeneration.SQLPromptGenerator.AutoGeneratePrompt | sql_generator/llm/sql_prompt_generator.py:350-390 | the template chosen for the query and the number of tables, over their schema context |
| PromptGeneration.SQLPromptGenerator.ExtractSelected | sql_generator/llm/sql_prompt_generator.py:411-417 | the result loop computes exactly the selected-tables list (or its error) |
| PromptGeneration.SQLPromptGenerator.InferTables | sql_generator/llm/sql_prompt_generator.py:457-474 | corrected inference: the schema's table names the query mentions, in schema order |
| PromptGeneration.SQLPromptGenerator.GenerateSqlQuery | sql_generator/llm/sql_prompt_generator.py:392-451 | corrected generate_sql_query (it uses the corrected table inference): returns the prompt for the query and search results and records it as the last prompt |
| PromptGeneration.SqlQueryPromptAsWritten | sql_generator/llm/sql_prompt_generator.py:409-451 | generate_sql_query as written: without a table-naming search result the fallback prompt is returned, loader or not; a failing result gives the error prompt; a result naming a table gives the same prompt as the corrected version |
| PromptGeneration.MentionedQueryFallsBack | sql_generator/llm/sql_prompt_generator.py:419-471 | for a schema table the query mentions and no search results, the program as written returns the fallback prompt, while the corrected version returns a template prompt |
| LLM.FirstMatch | sql_generator/llm/llm_service.py:157-160 | the index found is that of a prefix the reply starts with, and no earlier prefix matches; when there is none it is the list's length |
| LLM.RemovePrefix | sql_generator/llm/llm_service.py:157-160 | the prefix loop removes the first listed prefix that matches, strips the rest and stops; with no match the text is unchanged |
| LLM.RemoveFences | sql_generator/llm/llm_service.py:139-147 | the reply is stripped, loses a leading "```sql" (tried before "```") and then a trailing "```" |
| LLM.ExtractSql | sql_generator/llm/llm_service.py:137-162 | `_extract_sql` is fence removal, then first-prefix removal, then strip(); the result has no leading or trailing whitespace |
| LLM.StripKeepsFenced | sql_generator/llm/llm_service.py:139 | strip() leaves alone text that opens and closes with non-space characters |
| LLM.SqlFenceRemoved | sql_generator/llm/llm_service.py:139-147 | a reply fenced as "```sql" + body + "```" is unfenced to exactly the body |
| LLM.PlainFenceRemoved | sql_generator/llm/llm_service.py:139-147 | a plain "```" fence is removed the same way when the body does not itself start with "sql" |
| LLM.SqlOpeningRemoved | sql_generator/llm/llm_service.py:141-142 | the "```sql" opening is cut off before the closing fence is looked at |
| LLM.PlainOpeningRemoved | sql_generator/llm/llm_service.py:143-144 | a "```" opening not followed by "sql" is cut off |
| LLM.ClosingRemoved | sql_generator/llm/llm_service.py:146-147 | a trailing "```" is cut off |
| LLM.OnlyFirstPrefix | sql_generator/llm/llm_service.py:157-160 | when no earlier prefix matches, prefix i is removed once and whatever follows it, another listed prefix included, is kept (stripped) |
| LLM.NoPrefix | sql_generator/llm/llm_service.py:157-160 | text starting with none of the prefixes is kept whole |
| LLM.SqlQueryPrefixFirst | sql_generator/llm/llm_service.py:149-160 | "SQL Query:" is tried before "Query:", so a reply starting with "SQL Query:" loses exactly that prefix |
| LLM.ProviderOrderHead | sql_generator/llm/llm_service.py:341-362 | the order starts with the preferred provider when it is given and available, else with the default provider when available, and is otherwise all providers in insertion order |
| LLM.ProviderOrderAvailable | sql_generator/llm/llm_service.py:341-362 | every name in the order is an available provider |
| LLM.ProviderOrderFollowers | sql_generator/llm/llm_service.py:345-359 | after the head come exactly the fallback names that are available and differ from the head, in fallback order |
| LLM.BuiltInOrder | sql_generator/llm/llm_service.py:341-362 | under the built-in configuration, with "local" available and no usable preference, only "local" is tried |
| LLM.AppendFollowers | sql_generator/llm/llm_service.py:346-350 | the append loop produces the head followed by the filtered fallbacks |
| LLM.Failure | sql_generator/llm/llm_service.py:323-339 | the failure response of the retry loop is unsuccessful, has empty SQL and carries the given error |
| LLM.RetryCalls | sql_generator/llm/llm_service.py:306-308 | the provider is called at most max_retries + 1 times, and not at all when max_retries is negative |
| LLM.RetryFirstSuccess | sql_generator/llm/llm_service.py:306-321 | the run returns a successful response iff some attempt succeeds that is reached (every attempt for a non-negative retry_delay; only the first for a negative one, whose first sleep raises); it then returns the first successful response, and every earlier attempt failed |
| LLM.RetrySleepCount | sql_generator/llm/llm_service.py:312-321 | every call but the last is followed by a sleep |
| LLM.RetryDelays | sql_generator/llm/llm_service.py:304-321 | the first sleep lasts retry_delay and each later one twice the one before |
| LLM.RetryExhausted | sql_generator/llm/llm_service.py:312-339 | a run without success escapes with the ValueError of time.sleep after exactly one call iff retry_delay is negative and a retry is due; otherwise it returns after making every call, with the exception text of the last call when that call raised, else "Max retries exceeded" |
| LLM.GenerateWithRetry | sql_generator/llm/llm_service.py:301-339 | the loop returns the response, or the exception that escapes it, exactly as the retry definition describes, with the same calls and sleeps |
| LLM.AllFailed | sql_generator/llm/llm_service.py:291-299 | the all-failed response has provider and model "none", no success and error "All LLM providers failed" |
| LLM.ServeFirstUsable | sql_generator/llm/llm_service.py:266-299 | the fallback loop returns the response of the first available provider in the order whose run returned success with non-empty SQL; a run that escapes with an exception is skipped as the except clause at line 287 does; it returns the all-failed response exactly when there is no such provider |
| LLM.DefaultKeysShared | sql_generator/llm/llm_service.py:364-368 | no provider, the empty name and the name "default" share one cache key |
| LLM.CacheKeyInjective | sql_generator/llm/llm_service.py:364-368 | equal keys mean equal prompts and provider tags, provided the tags contain no ':' |
| LLM.AfterLastColon | sql_generator/llm/llm_service.py:367 | the text after the last ':' contains no ':' |
| LLM.AfterLastColonOf | sql_generator/llm/llm_service.py:367 | the provider tag, when it has no ':', is recovered as the text after the last ':' of the key |
| LLM.CacheKeyAmbiguous | sql_generator/llm/llm_service.py:367 | a provider name containing ':' can make two different requests share one key |
| LLM.LLMService.constructor | sql_generator/llm/llm_service.py:170-183 | the service starts with the given available providers and configuration and an empty cache |
| LLM.LLMService.GetProviderOrder | sql_generator/llm/llm_service.py:341-362 | the method returns the order the provider-order definition gives |
| LLM.LLMService.GetAvailableProviders | sql_generator/llm/llm_service.py:370-372 | the available providers in insertion order |
| LLM.LLMService.TryProviders | sql_generator/llm/llm_service.py:266-299 | the fallback loop, which skips unavailable providers, escaped runs and unusable responses, returns what the fallback definition gives |
| LLM.LLMService.GenerateSql | sql_generator/llm/llm_service.py:239-299 | with caching on, a cache hit is returned and nothing changes; otherwise the fallback result over the provider order is returned and cached only when it succeeded with non-empty SQL and caching is on; the cache holds only such responses |
| LLM.LLMService.ClearCache | sql_generator/llm/llm_service.py:384-387 | the cache becomes empty |
| LLM.GenerateSqlOutcome | sql_generator/llm/llm_service.py:256-299 | without a cache hit, generate_sql returns either a successful response with SQL or the all-failed response |
| Generator.SQLResultDefaults | sql_generator/core/generator.py:19-32 | SQLResult keeps sql and prompt, takes confidence 0.0 when it is omitted, and takes an empty metadata dict when it is omitted, None or empty |
| Generator.ConfidenceFirstFive | sql_generator/core/generator.py:150-155 | the confidence depends only on the first five results |
| Generator.ScoreSumOkIff | sql_generator/core/generator.py:154-155 | summing the scores fails (TypeError) exactly when some result's score is not a number |
| Generator.ScoreSumBounds | sql_generator/core/generator.py:154-155 | when every score lies in [0, 1], the sum succeeds and lies between 0 and the number of results |
| Generator.ConfidenceBounds | sql_generator/core/generator.py:148-155 | when every score lies in [0, 1], the confidence (0.0 for no results, else the mean of the first five) lies in [0, 1] |
| Generator.UnscoredSumZero | sql_generator/core/generator.py:154 | a missing 'score' counts as 0.0, so results without scores sum to 0.0 |
| Generator.UnscoredConfidenceZero | sql_generator/core/generator.py:150-155 | results without any score give confidence 0.0 |
| Generator.AddResultMembers | sql_generator/core/generator.py:160-173 | one pass of the loop adds exactly the result's top-level 'table' and the first truthy 'table_name'/'table'/'name' value of its truthy metadata |
| Generator.TablesOfMembers | sql_generator/core/generator.py:157-175 | without an error, the collected tables are exactly the values some result contributes |
| Generator.TablesOfErrSticks | sql_generator/core/generator.py:157-175 | the first error (an unhashable table value, or a metadata value that cannot be searched) ends the extraction; later results do not matter |
| Generator.PickTable | sql_generator/core/generator.py:169-173 | the inner loop over the table keys returns the first key both present and truthy, or the TypeError that a non-dict metadata value raises |
| Generator.ListOf | sql_generator/core/generator.py:175 | list(tables) holds every element of the set exactly once |
| Generator.ExtractTablesFromResults | sql_generator/core/generator.py:157-175 | returns the error of the loop, or a duplicate-free list whose elements are exactly the contributed tables |
| Generator.KeywordCount | sql_generator/core/generator.py:214 | the count never exceeds the number of keywords |
| Generator.KeywordCountFilter | sql_generator/core/generator.py:214 | the count equals the number of keywords occurring as substrings of the text |
| Generator.BlankQueryInvalid | sql_generator/core/generator.py:205-206 | an empty or whitespace-only question is rejected |
| Generator.ValidQueryIff | sql_generator/core/generator.py:208-216 | a non-blank question is accepted iff fewer than three of the six keywords occur in its upper-cased form |
| Generator.CountThree | sql_generator/core/generator.py:214-216 | three distinct keywords occurring already reach the rejection limit |
| Generator.SelectFromWhereInvalid | sql_generator/core/generator.py:210-216 | a question containing SELECT, FROM and WHERE (in any case) is rejected |
| Generator.NoKeywordsValid | sql_generator/core/generator.py:205-216 | a non-blank question with none of the keywords is accepted |
| ConfigManager.WalkAppend | sql_generator/utils/config_manager.py:100-106 | walking keys a + b is walking a and then b from where a arrived |
| ConfigManager.GetFallsBack | sql_generator/utils/config_manager.py:103-108 | get returns the default as soon as one key is missing or one value on the way is not a dict |
| ConfigManager.GetAfterSet | sql_generator/utils/config_manager.py:118-128 | after a successful set, walking the same keys reaches the value written |
| ConfigManager.GetAfterSetPath | sql_generator/utils/config_manager.py:89-128 | after a successful set(p, v), get(p) returns v whatever the default |
| ConfigManager.SetFrame | sql_generator/utils/config_manager.py:118-128 | every path that branches off the written one reads the same before and after set |
| ConfigManager.SetCreatesMissing | sql_generator/utils/config_manager.py:121-125 | below a missing key, set creates one new single-entry dict per remaining intermediate key |
| ConfigManager.SetFailsIff | sql_generator/utils/config_manager.py:118-128 | set raises TypeError exactly when some existing intermediate value along the path is not a dict |
| ConfigManager.Config.constructor | sql_generator/utils/config_manager.py:11-19 | the configuration holds the loaded dict |
| ConfigManager.Config.Get | sql_generator/utils/config_manager.py:89-108 | the loop returns what the dotted path reaches, or the default |
| ConfigManager.Config.Set | sql_generator/utils/config_manager.py:110-128 | on success the new dict is the path update; on a TypeError the dict is unchanged |

## Left out

- Embedding and vector index: SentenceTransformer encoding, the ChromaDB client and its collections, and joblib caching are foreign library calls. `schema_embedder.py` is not part of this model. Of `vector_store.py` and `schema_searcher.py`, only the data preparation and the post-processing of hits are modelled. The embeddings and the distances ChromaDB returns are inputs.
- LLM transport: the HTTP request of `LocalLLMProvider.generate_sql`, `is_available`, `health_check` and `_initialize_providers` talk to a server. A provider is a function from the attempt number to an outcome, and `LLMService` is given the providers that initialised and are available.
- Timing: `time.sleep` is not executed. The retry model records the list of delays it would sleep; a negative delay is modelled as the ValueError that `time.sleep` raises, which escapes `_generate_with_retry`. `tokens_used` and `response_time` are not modelled.
- `LLM.CacheKey` is the text `_get_cache_key` hashes, `prompt + ":" + provider-or-"default"`. The md5 digest is left out, because hashing cannot be stated usefully here. Two texts that collide under md5 would share a cache entry in the source but not in the model.
- File and configuration I/O: these are left out because they read and write files. This covers JSON loading and saving, config-file discovery, `Config._setup_logging`, `save`, `reload` and the section getters, the `get_config` singleton, `get_chroma_path`, and `QueryAnalyzer.load_config`. `Config`, `SchemaLoader` and the `QueryAnalyzer` patterns (`LoadPatterns`) are built from already-loaded data. `SemanticSchema` is built from a loader.
- `SchemaLoading.SchemaLoader.constructor`: it takes the parsed schema, and Pydantic's field validation is not modelled. The `Table` and `Column` datatypes carry the fields validation guarantees, with a missing alias list as the empty list. `WellFormed` only requires each table's column dict to be a proper insertion-ordered dict.
- Logging, the `__str__`/`__repr__` methods, and the CLI, demo and display functions of `main.py` produce no values the core uses.
- The orchestration layers are glue around the modelled stages: `SQLGenerator.generate_sql`, `get_schema_info`, `reset_embeddings` and `_initialize_components`, and `main.generate_sql_prompt_data`. Their stages are modelled one by one.
- The wording of prompt templates and of the reasoning strings (`_generate_table_selection_reasoning`, `_generate_column_selection_reasoning`) is free text. A prompt is a `Prompt` datatype recording which template was filled and with what. `SchemaSelection.SelectTables` returns no reasoning string.
- Numerics: floats are `real`, so IEEE rounding is not modelled. In particular, band boundaries and averages are exact.
- Text: `lower()` and `upper()` map ASCII letters only. `\w` is ASCII letters, digits and `_`. `\s` is a fixed set of ASCII and Latin-1 space characters. Unicode case folding is not modelled.
- Python hashing treats `1`, `1.0` and `True` as one dict key. The `Value` datatype keeps them apart, which matters only for dict keys and `in` tests on mixed numeric values.
- `list(set(...))` in `_extract_tables_from_results` has an unspecified order. `Generator.ExtractTablesFromResults` states the members of its result and not their order.
- Iteration over the neighbour sets of the relationship graph has no fixed order in Python. The search picks the next neighbour nondeterministically, so which of several equally short paths is used is left open.
- `PathFinding.FindRelationshipPaths`: the results are proved to include every chordless path within the depth bound (no table linked to a table two or more places before it), not every simple path. The set-signature de-duplication can drop a path with a chord once another path over the same tables has been expanded. No shortest path has a chord, so the first result is still a shortest path whenever one exists.
- `AnalyzeQuery` requires an analyzer with one query pattern per id and one table pattern per table name, as the source's two dicts have (sql_generator/core/query_analyzer.py:73-81). `LoadPatterns` builds such an analyzer from configuration lists with repeats, keeping the last pattern for each key. An `Analyzer` written by hand with a repeated key is outside the contract.
- `VectorStorage.PrepareData`: it requires every record to pass `_validate_records` (`embedding` and `text` present, the embedding a list or a dict). For a dict embedding, `list()` gives its keys in insertion order; the `Value` model has no key order, so the model states the keys but not their order. NumPy arrays are lists here. `store_records` calls `_validate_records` first (sql_generator/schema/vector_store.py:169), and that check raises otherwise.
- The configuration getters `get_confidence_threshold`, `get_max_tables` and `is_strict_mode` return configuration fields. `SchemaSearcher.search_tables`, `search_columns`, `search_schema`, `get_related_schema` and `get_stats` are wrappers around the vector index.
- `PromptGeneration.Section.Described` records only the table name of a schema section. The source also renders the table description, its aliases, and per column the type, length, precision, NULL/NOT NULL and aliases (sql_generator/llm/sql_prompt_generator.py:197-234). This is prompt text, like the template wording.
- `ConfigManager.Config.Get` returns nested dicts as values. In the source `get` returns the live nested dict, so a caller that mutates it changes the configuration; aliasing through returned dicts is not modelled.
- `LLM.LLMService.GenerateSql`: a provider's outcome is a function of its name and the attempt number. `_get_provider_order` keeps duplicates in `fallback_providers` (sql_generator/llm/llm_service.py:347-349), so a repeated name is tried again; in the model it replays the same outcomes, while a real server could answer differently.
- `PromptGeneration.SQLPromptGenerator.GetLastPrompt` only reads the field. Its contract lives in `GenerateSqlQuery`, which states the new value of `lastPrompt`.

## Findings

| source | as written | input that shows it | evidently intended | confidence | as-written member | corrected member |
|---|---|---|---|---|---|---|
| sql_generator/core/schema_manager.py:252-255 | `select_tables` passes seven positional arguments to `_generate_table_selection_reasoning`, which declares eight after `self` (sql_generator/core/schema_manager.py:475-483); the call raises TypeError | any query and any semantic results: every call of `select_tables` reaches the reasoning call | return the selection with its reasoning | not executed | SchemaSelection.SelectTablesAsWritten | SchemaSelection.SelectTables |
| sql_generator/llm/sql_prompt_generator.py:466-471 | `_infer_tables_from_query` reads `self.loader.tables`, an attribute `SchemaLoader` does not have, so the `hasattr` test fails and the result is always `[]` | a schema with table `cust` and the query "list every cust": no table is inferred | the schema's table names (`list_tables()`) whose lower-case form occurs in the lower-cased query | not executed | PromptGeneration.InferTablesMisses | PromptGeneration.SQLPromptGenerator.InferTables |
