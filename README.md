# Jockey and bloodline features of the JRA race-result analysis

This project models the feature generators of a JRA (Japan Racing
Association) race-result analysis and proves properties of the model.
A generator turns race results into per-segment statistics:

- **Jockey features** (`src/features/jockey_features.py`):
  - three rollups of a jockey's results: by course, surface and distance band; by popularity tier; by surface and going;
  - the feature record of one jockey under one course condition, compared with the jockey's overall record.
- **Bloodline features** (`src/features/blood_features.py`):
  - the ROI rollup by sire, surface and going;
  - the sire feature of a horse, with the sire's ROI rank under the race's condition;
  - the pedigree tree of a horse.

The statistics are SQL queries. The model replaces the database with a value:

- `Records.Db` holds the runs (an entry row joined with its race row) and the horse records keyed by registration number.
- `Records.Db.failing` is the set of queries that raise.

Each query becomes a function over that value. All arithmetic is exact:

- odds are integer tenths, as stored;
- rates and ROI are integer hundredths (`12345` is 123.45 %);
- `ROUND(x, 2)` on non-negative NUMERIC is `Aggregates.RoundedRatio`, the nearest integer with a half rounded up;
- a `NULLIF` division by zero is `None`.

The shared pieces are:

- **`Buckets`**: every `CASE` mapping (surface, going, condition code, distance band, popularity tier, course name and code).
- **`Aggregates`**: the qualifying-run filter, the per-group tally (`COUNT`, `COUNT FILTER`, `SUM`), `GROUP BY`, `HAVING` and `ORDER BY`. `Aggregates.IsRollupOf` states what a rollup output is:
  - it is in the requested order;
  - it has one group per key;
  - each group tallies exactly its own qualifying runs;
  - it holds exactly the keys with at least `min_races` runs.
- **`Pedigree`**: two parts.
  - The recursive expansion into rows labelled with a generation and a position string: `'1'` for the horse, then `'1'` appended for a sire and `'2'` for a dam.
  - The loop that reshapes those rows into a nested tree. This is an imperative method, `Pedigree.Reshape`, proved equal to a fold over the rows. The main theorem, `Pedigree.ReshapeBuildsTree`, shows that folding the expansion yields the tree built directly by recursion, `Pedigree.Ancestor`. So the walk to a parent never reaches a missing entry.

## Model

| member | source | states |
|---|---|---|
| Buckets.TrackTypeOf | src/features/jockey_features.py:68-72 | the surface is turf exactly when the track code starts with '1', dirt exactly when it starts with '2', otherwise other (an empty code included) |
| Buckets.TrackTypeLabelInjective | src/features/jockey_features.py:341-345 | comparing surface labels, as the course-feature WHERE does, is the same as comparing surfaces |
| Buckets.GoingOfCode | src/features/blood_features.py:64-74 | a single going code has a label exactly when it is '1'-'4' |
| Buckets.GoingOf | src/features/jockey_features.py:215-225 | a going label other than 不明 occurs exactly when the surface is turf with turf code '1'-'4' or dirt with dirt code '1'-'4' |
| Buckets.ConditionCode | src/features/blood_features.py:59-63 | on turf the condition code is the turf going field, on dirt the dirt going field, and otherwise exactly '0', which is never a going code |
| Buckets.GoingIsConditionCodeLabel | src/features/blood_features.py:59-74 | the track_condition label is the label of the condition_code column |
| Buckets.GoingLabelInjective | src/features/blood_features.py:200 | comparing going labels is the same as comparing goings |
| Buckets.DistanceBandOf | src/features/jockey_features.py:73-77 | sprint exactly up to 1400 m, long exactly above 2000 m, middle otherwise |
| Buckets.DistanceBandMonotone | src/features/jockey_features.py:73-77 | a longer race never falls in a shorter band |
| Buckets.DistanceBandLabelInjective | src/features/jockey_features.py:346-350 | comparing band labels is the same as comparing bands |
| Buckets.TierOf | src/features/jockey_features.py:144-148 | popularity 1-3 is favourite, 4-8 mid-price, every other value longshot, each as an iff |
| Buckets.TierLabelOrder | src/features/jockey_features.py:176 | the first characters of the tier labels order them mid-price, favourite, longshot |
| Buckets.CourseTablesInverse | src/features/jockey_features.py:289-292 | the name-to-code dictionary and the code-to-name CASE are exact inverses |
| Buckets.CourseNameOf | src/features/jockey_features.py:55-67 | a known code maps to a name that maps back to it; an unknown code is its own name |
| Buckets.CourseCodeOf | src/features/jockey_features.py:293-297 | a known name maps to a code that maps back to it; an unknown name is used unchanged as the code |
| Buckets.CourseCodeRoundTrip | src/features/jockey_features.py:293-297 | for a code that is not itself a course name, code to name to code returns the code |
| Aggregates.TallyOf | src/features/jockey_features.py:97-106 | COUNT(*) is the number of runs; wins <= top-3 <= total; middle plus longshot wins <= wins with popularity >= 4 <= wins; no wins means no payout |
| Aggregates.RoundedRatio | src/features/jockey_features.py:100 | the result is num/den rounded to the nearest integer, a half rounded up |
| Aggregates.WinRate | src/features/jockey_features.py:100 | NULL exactly when there are no runs; otherwise wins*100/total rounded to hundredths, at most 100.00 |
| Aggregates.Top3Rate | src/features/jockey_features.py:101 | NULL exactly when there are no runs; otherwise top3*100/total rounded to hundredths |
| Aggregates.Roi | src/features/jockey_features.py:102 | NULL exactly when there are no runs; otherwise (winners' odds, losers 0)*100/total rounded to hundredths |
| Aggregates.AvgWinOdds | src/features/jockey_features.py:103 | NULL exactly when nobody won; otherwise the winners' odds averaged and rounded |
| Aggregates.RatioOf | src/features/jockey_features.py:416-418 | NULL exactly when either side is NULL or the divisor is 0; otherwise a/b rounded to hundredths |
| Aggregates.WorkedExample | src/features/jockey_features.py:100-102 | 25 runs with 10 wins at odds 3.0 give a 40.00 % win rate and 120.00 % ROI |
| Aggregates.Filter | src/features/jockey_features.py:86-89 | a run is kept exactly when it satisfies the WHERE clause, and never more rows than the input |
| Aggregates.Qualifies | src/features/jockey_features.py:86-89 | a run counts when its finish position is all digits, is neither '00' nor '99', and it has win odds (a definition; no contract) |
| Aggregates.Select | src/features/jockey_features.py:108 | the runs of one group are exactly those with its key |
| Aggregates.FilterMultiplicity | src/features/jockey_features.py:86-97 | each run satisfying the WHERE clause is kept as many times as it occurs, and no other run, so COUNT(*) counts duplicate rows |
| Aggregates.SelectMultiplicity | src/features/jockey_features.py:108 | each run with the group's key is in the group as many times as it occurs, and no other run |
| Aggregates.TallyMonotone | src/features/jockey_features.py:353-365 | filtering by a weaker WHERE clause never decreases any counter |
| Aggregates.GroupBy | src/features/jockey_features.py:107-108 | one group per key that occurs, keys distinct, each tallying exactly the runs with its key |
| Aggregates.Having | src/features/jockey_features.py:109 | keeps exactly the groups with at least min_races runs |
| Aggregates.BeforeTransitive | src/features/blood_features.py:257 | the descending exact-ROI order, compared by cross-multiplication, is transitive |
| Aggregates.SortBySorted | src/features/jockey_features.py:110 | the ORDER BY output is sorted by ROI descending |
| Aggregates.SortByMembers | src/features/jockey_features.py:110 | the ORDER BY output holds exactly the input groups |
| Aggregates.SortBy | src/features/jockey_features.py:110 | the ORDER BY as an insertion sort: the output is a permutation (the same multiset) of the input groups |
| Aggregates.Rollup | src/features/jockey_features.py:91-110 | the query pipeline WHERE, GROUP BY, HAVING, ORDER BY as a composition (a definition; its contract is Aggregates.RollupSpec) |
| Aggregates.RollupSpec | src/features/jockey_features.py:91-110 | a rollup is sorted, has distinct keys, tallies each key's runs exactly and holds exactly the keys with at least min_races (and one) runs |
| Aggregates.RollupWitness | src/features/jockey_features.py:107-109 | every output group comes from a run satisfying the WHERE clause with its key |
| Aggregates.SelectOfFilter | src/features/jockey_features.py:366-394 | one group of a filtered table is the table filtered by the WHERE clause and the key |
| JockeyFeatures.CourseRoi | src/features/jockey_features.py:32-120 | empty on failure; otherwise the rollup by (jockey id, name, course name, surface, band) of qualifying runs since since_year (default 2000) with min_races (default 20), ordered by rounded ROI |
| JockeyFeatures.CourseRoiNames | src/features/jockey_features.py:55-67 | each group's course name is the table name of a run's course code, or the raw code when it is not in the table |
| JockeyFeatures.TierPartSpec | src/features/jockey_features.py:162-176 | one tier's sorted part holds exactly the popularity groups of that tier with enough runs |
| JockeyFeatures.PopularityRoi | src/features/jockey_features.py:122-186 | empty on failure; otherwise ordered by tier label then rounded ROI, distinct keys, exact tallies over runs with a popularity, exactly the keys with enough runs; since_year defaults to 2000 and min_races to 20 |
| JockeyFeatures.PopularityRoiAssembly | src/features/jockey_features.py:176 | the mid-price, favourite and longshot parts concatenated satisfy the whole popularity-rollup description |
| JockeyFeatures.SurfaceConditionRoi | src/features/jockey_features.py:188-266 | empty on failure; otherwise the rollup by (jockey id, name, surface, going) of qualifying runs since since_year, ordered by rounded ROI; since_year defaults to 2000 and min_races to 20 |
| JockeyFeatures.SurfaceConditionKnownGoing | src/features/jockey_features.py:215-225 | a group with a known going is a turf or a dirt group |
| JockeyFeatures.JockeyCourseFeature | src/features/jockey_features.py:288-465 | the requested condition is echoed; the record is zero-filled exactly when the query fails or the segment has no qualifying run, and is then the fixed default record |
| JockeyFeatures.SegmentRows | src/features/jockey_features.py:337-351 | the segment WHERE: a qualifying run of the jockey on the course code whose surface and band labels equal the requested ones, over all years (a definition) |
| JockeyFeatures.ZeroFeature | src/features/jockey_features.py:430-443 | the default record: the requested condition echoed, an empty name, zero counts and 0.0 rates (a definition) |
| JockeyFeatures.CourseFeatureStatistics | src/features/jockey_features.py:366-418 | a measured record carries the segment tally of the reported jockey name, an overall tally of the jockey, and the two ratios of the reported rates |
| JockeyFeatures.CourseFeatureWithinOverall | src/features/jockey_features.py:337-364 | with one name per jockey, the reported overall figures cover all the jockey's qualifying runs, the reported segment counters are at most the reported overall ones, and total_races <= all_total_races |
| JockeyFeatures.SegmentWithinOverall | src/features/jockey_features.py:366-394 | under every (id, name) group no segment counter exceeds the jockey's overall counter |
| JockeyFeatures.Measure | src/features/jockey_features.py:396-418 | the joined output row: segment counts and rates, overall count, win rate and ROI, and the two rounded ratios (a definition; its contract is JockeyFeatures.CourseFeatureStatistics) |
| JockeyFeatures.NonEmptyGroups | src/features/jockey_features.py:427 | a grouped query returns no row exactly when no row qualifies |
| BloodFeatures.SireConditionRoi | src/features/blood_features.py:32-115 | empty on failure; otherwise the rollup by (sire id, name, surface, going) of qualifying runs since since_year of horses with a known sire, ordered by rounded ROI; since_year defaults to 2000 and min_races to 20 |
| BloodFeatures.SireConditionKnownSires | src/features/blood_features.py:87 | no group is keyed by a NULL sire or the unknown-sire number '0000000000' |
| BloodFeatures.RankOf | src/features/blood_features.py:255-266 | 0 when the key is not ranked; otherwise its 1-based position, with no earlier group of that key |
| BloodFeatures.SireRanking | src/features/blood_features.py:216-263 | the ranking population: sire groups under the condition with at least 20 runs, by exact ROI descending (a definition; its contract is BloodFeatures.RankSpec) |
| BloodFeatures.RankSpec | src/features/blood_features.py:249-266 | a sire is ranked exactly when it has at least 20 runs under the condition; its rank points at its own tally; sires above have exact ROI at least its own and sires below at most |
| BloodFeatures.RankCovers | src/features/blood_features.py:255-258 | the group at position i has rank i + 1, so ranks are distinct and cover 1..K |
| BloodFeatures.HorseSireTrackRoiFeature | src/features/blood_features.py:117-293 | the default record exactly when the lookup fails, the horse is unknown or the stats query fails; otherwise the lookup's sire name and the sire's count, ROI and win rate (NULL ROI exactly for zero runs), and rank 0 when the rank query fails |
| BloodFeatures.StatsRunsAreRankGroup | src/features/blood_features.py:159-262 | the runs of the stats query are exactly the sire's group in the ranking population |
| BloodFeatures.FeatureRankedIffEnoughRuns | src/features/blood_features.py:194-274 | the feature's rank is non-zero exactly when its run count is at least 20, and the ranked group has that count |
| BloodFeatures.SireIdLiteral | src/features/blood_features.py:191 | the sire id as the f-string writes it into the stats and rank queries: the id itself, and the text 'None' for a NULL id (a definition) |
| BloodFeatures.NullSireCountsNothing | src/features/blood_features.py:186-266 | for a horse with a NULL sire id, when no horse records the sire 'None', the feature counts 0 races, has NULL ROI and win rate, and rank 0 |
| BloodFeatures.SireRankedIffEnoughRuns | src/features/blood_features.py:159-262 | a sire's rank is non-zero exactly when its stats query counts at least 20 runs, and the ranked group has that count |
| BloodFeatures.FeatureCounts | src/features/blood_features.py:194-274 | a measured feature's race count is the size of its sire's stats query and its rank is that sire's rank |
| Pedigree.Reshape | src/features/blood_features.py:383-420 | the loop's result equals the fold of the one-row step over the rows |
| Pedigree.GetPedigreeTree | src/features/blood_features.py:311-426 | {} on failure; otherwise the pedigree tree of the horse to a depth (default 3) lowered to 3, {} for an unknown horse |
| Pedigree.PedigreeRows | src/features/blood_features.py:316-373 | the recursive expansion, root first, then generation by generation (a definition; its contracts are Pedigree.ExpansionShape and Pedigree.ExpansionOrdered) |
| Pedigree.Layers | src/features/blood_features.py:318-361 | generation g followed by all later generations below depth (a definition) |
| Pedigree.Children | src/features/blood_features.py:332-360 | the next generation: each row's sire then dam, when known and below depth (a definition; its contract is Pedigree.ChildrenMembers) |
| Pedigree.ChildrenMembers | src/features/blood_features.py:332-360 | the next generation holds exactly the sire and dam rows of expanding parents |
| Pedigree.Step | src/features/blood_features.py:386-420 | one loop iteration: the horse's row starts the tree, any other row is set under the node its position leads to, and a missing entry fails (a definition) |
| Pedigree.Fold | src/features/blood_features.py:385-420 | the loop as one step per row (a definition; its contract is Pedigree.Reshape) |
| Pedigree.NodeOf | src/features/blood_features.py:408-415 | the node a row adds: its id and name, with sire and dam placeholders only below depth (a definition) |
| Pedigree.Descend | src/features/blood_features.py:400-405 | the walk from the root along a path, '1' to the sire and any other character to the dam, failing at a missing entry (a definition) |
| Pedigree.SetChild | src/features/blood_features.py:417-420 | the assignment of the node to the sire or dam entry of the node at the path (a definition) |
| Pedigree.Ancestor | src/features/blood_features.py:316-420 | the reference tree built directly by recursion, the target of the main theorem (a definition) |
| Pedigree.PedigreeTree | src/features/blood_features.py:316-420 | a tree exists exactly for a registered horse, has the horse's id at its root, and the root has both a sire and a dam entry |
| Pedigree.ReshapeBuildsTree | src/features/blood_features.py:316-422 | reshaping the expansion of a horse gives its directly built pedigree tree; the expansion is empty exactly for an unknown horse |
| Pedigree.GraftPartial | src/features/blood_features.py:396-420 | in a tree holding every earlier generation the walk to a row's parent succeeds, and setting the row there attaches exactly that row |
| Pedigree.FoldLayerRows | src/features/blood_features.py:385-420 | reshaping the rows of one generation attaches each of them |
| Pedigree.FoldLayers | src/features/blood_features.py:385-420 | reshaping generation g and all later ones completes the tree |
| Pedigree.ChildrenLayer | src/features/blood_features.py:332-360 | the recursive step turns generation g into exactly generation g + 1 |
| Pedigree.PartialComplete | src/features/blood_features.py:413-415 | once every generation up to depth is attached the part-built tree is the pedigree tree |
| Pedigree.DescendPrefix | src/features/blood_features.py:400-405 | a walk that fails part-way fails for the whole path, and one that succeeds continues from where it stopped |
| Pedigree.BrokenStays | src/features/blood_features.py:424-426 | once the walk has failed, the result stays {} |
| Pedigree.ExpansionShape | src/features/blood_features.py:325-360 | the first row is the horse with position '1' and generation 1; every position starts with '1' and its length is the generation, at most depth; no row other than the horse has a NULL or unknown id |
| Pedigree.ExpansionOrdered | src/features/blood_features.py:372 | the expansion comes out ordered by generation and then by position, positions distinct |
| Pedigree.SireBeforeDam | src/features/blood_features.py:341-357 | a sire's position sorts before the dam's |
| Pedigree.AncestorHeight | src/features/blood_features.py:413-415 | the subtree of a generation-g row has at most depth - g + 1 levels below depth, 2 levels for the horse's own row at depth 1 or less, and 1 level (a leaf) past depth, placeholders included |
| Pedigree.PedigreeTreeHeight | src/features/blood_features.py:311-313 | a known horse has a tree of at most max(depth, 2) levels |

## Left out

- Database access, SQL text assembly and its injection risk are not modelled. A query is a function of `Records.Db`, and a failing query is a member of `Db.failing`.
- Logging is not modelled.
- The pandas mechanics (`iloc`, `to_dict`, `iterrows`) are not modelled. A frame is a `seq`, and its first row is the head of that `seq`.
- `TRIM` on names is not modelled.
- `CAST(kyori AS INTEGER)` is not modelled: the distance is already an `int`.
- `CAST(tansho_odds AS NUMERIC)` and `CAST(tansho_ninkijun AS INTEGER)` are not modelled: odds and popularity are already numbers. On non-numeric text the database raises, and the whole query fails.
- The popularity rollup's `ORDER BY popularity_category` is modelled as code-point order of the labels (中 < 人 < 大), as in a binary (`C`) collation. A collation that orders kanji differently, such as JIS X 0208 order (人, 大, 中), would list the tiers in another order. The order within a tier does not depend on this.
- The string comparison of `kaisai_nen` with `since_year` is modelled as an integer comparison of years.
- `avg_popularity` and the `AVG(popularity)` columns are left out. They are averages of a nullable column and no other output depends on them.
- A rollup group carries its `Aggregates.Tally` rather than the rounded columns. Each column (`win_rate`, `top3_rate`, `roi_percentage`, `avg_win_odds`) is the function of that tally that `Aggregates` names.
- Unordered SQL output is modelled in one deterministic order, and the lemmas state only facts that hold in every order. This covers the order among groups of equal ROI. It also covers the row the course feature picks with `iloc[0]` from an unordered join, and the `ROW_NUMBER` tie-break.
- The sire lookup takes the record of the horse. Registration numbers are unique, so at most one row comes back.
- JockeyFeatures.CourseFeatureWithinOverall: requires that all of a jockey's qualifying runs carry one name, because the join pairs the segment and overall rows on the jockey id alone; without it the reported overall figures may be tallied under a different name. JockeyFeatures.SegmentWithinOverall holds for every name without that requirement.
- The jockey's overall statistics read the entry table alone, without the join with the race table. The model reads the same runs as the segment, that is, entries that have a race row.
- The horse sire feature has a fallback for an empty stats frame or a NULL count (`blood_features.py` lines 205-213). It is not modelled: an aggregate without `GROUP BY` returns exactly one row, and `COUNT(*)` is never NULL. With zero runs the code therefore returns NULL ROI and win rate with 0 races, not the 0.0 of that fallback. The model follows the code.
- Pedigree.Step: an Empty tree followed by a row of generation 2 or more is treated as a failed walk. In the code, a generation-2 row (`'11'` or `'12'`) would be attached to the empty dictionary, giving a tree with only a sire or a dam entry, while a deeper row raises `KeyError`, which does match a failed walk. This branch never runs, because Pedigree.ExpansionShape shows the horse's own row comes first.
- Pedigree.Tree: the nested dictionaries are values, and setting a parent is a functional update (`SetChild`). The Python aliasing of `current` into the tree is not modelled.
- The recursive query (`blood_features.py` lines 316-361) has two recursive steps joined by `UNION ALL`. By PostgreSQL's rules it reads as `(anchor UNION ALL sire step) UNION ALL dam step`, and a recursive reference inside the left operand, the non-recursive term, is rejected. As written the query therefore raises, and `get_pedigree_tree` returns {} on the except path (`blood_features.py` lines 424-426); in the model that is `PedigreeQuery in db.failing`. For every other database the model gives the query its evident meaning, the generation-by-generation expansion of `Pedigree.PedigreeRows`.
