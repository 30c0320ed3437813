# ID3 decision tree — a Dafny model

This project models the core of `decision-tree`, a small Rust program that
learns a classification tree with the ID3 algorithm from comma-separated
records of categorical attributes and an outcome label, then uses the tree to
classify rows.

The model covers:

- the node type of the tree and its two queries, `Node::eval` and `Node::test`;
- the construction `id3`:
  - the leaf rule for exhausted attributes;
  - the prune rule with its `get_common_coutcome` majority vote;
  - the `max_by` choice of the split attribute;
  - one child per variant;
  - the fallback outcome for a variant that no record carries;
- the counting side of `entropy` and `information_gain`;
- the pure record shaping of `src/main.rs`:
  - splitting a token into attributes and outcome, with the `first` flag choosing the outcome column;
  - collecting the variant and outcome universes;
  - the training and held-out sets.

Modules, one file each:

| file | module | content |
|---|---|---|
| `wrappers.dfy` | `Wrappers` | `Option` and `Result`, the error channel for every Rust panic |
| `dataset.dfy` | `Dataset` | records, label counts, the per-variant subsets of a split, hash-set order as duplicate-free sequences |
| `scoring.dfy` | `Scoring` | entropy and information gain, with the per-count term `-c * log2(c)` as a parameter |
| `tree.dfy` | `Tree` | `Node`, `Eval`, `Test`, the serde round trip, the well-formedness predicate `Answers` |
| `induction.dfy` | `Induction` | `Id3`, the majority vote and the `max_by` selection |
| `id3_properties.dfy` | `Id3Properties` | what a built tree promises: rule by rule, shape, no failing `eval`, labels, depth |
| `loader.dfy` | `Loader` | row parsing, universe collection, training and test sets |
| `pipeline.dfy` | `Pipeline` | the end-to-end training theorem |

How the Rust code is rendered:

- Panics become `Err` values:
  - `BuildError` for `id3`: empty data at a leaf, a label outside the universe, an empty universe;
  - `QueryError` for the queries: index past the row, no matching child, a node with neither attribute nor outcome;
  - `LoadError` for `main.rs`: no records, a row wider than the first.
- A `HashSet` is a duplicate-free sequence in a fixed iteration order. The `HashMap` of `get_common_coutcome` is iterated in the order of the outcome universe.
- `max_by` and `max_by_key` keep the last of several equal maxima, so ties go to the later attribute or label (`MaxByLast`).
- The fallback for a variant without records is set on the splitting node itself, as src/algorithm.rs:92 does, not on the empty child. Because `eval` answers a present outcome first, such a node answers every row with the first record's label, and the split below it is never consulted. The model keeps this behaviour and proves its consequences (`Id3Properties.StarvedSplitAnswersFirstLabel`, `Id3Properties.StarvedSplitMisclassifiesTrainingRow`).
- `Id3` takes the attribute ranking as a parameter `gain`. The source's ranking is `InformationGainOf(variants, outcomes, term)`. Otherwise `Induction.Id3` follows the Rust function rule by rule and in the same order.

## Model

| member | source | states |
|---|---|---|
| Dataset.Subset | src/algorithm.rs:24-27 | the filtered subset holds exactly the records whose value at the attribute is the variant |
| Dataset.SubsetSize | src/algorithm.rs:24-28 | the subset has as many records as the column has occurrences of the variant (the `subset.len()` of the weight) |
| Dataset.Count | src/algorithm.rs:8 | the per-label count is at most the data size, and positive exactly when some record carries the label |
| Dataset.UnselectedIndices | src/main.rs:129-131 | the held-out indices are exactly those below the data size outside the training set, strictly ascending |
| Scoring.Share | src/algorithm.rs:28 | the weight `len / data.len()` is 1 for the whole data set and 0 for an empty subset |
| Scoring.EntropyOfEmpty | src/algorithm.rs:5-14 | entropy of no records is 0, since no count is positive |
| Scoring.EntropyOfPure | src/algorithm.rs:5-14 | on records that all carry one label of a duplicate-free universe, the entropy is `term` of the data size |
| Scoring.EntropyDependsOnlyOnCounts | src/algorithm.rs:5-14 | two data sets with equal per-label counts have equal entropy |
| Scoring.EntropyIgnoresZeroTerm | src/algorithm.rs:9-11 | the term is never applied to a zero count: terms that agree on positive counts give equal entropy |
| Scoring.CountsCoverData | src/algorithm.rs:7-8 | with every label in a duplicate-free universe, the per-label counts add up to the data size |
| Scoring.SubsetsCoverData | src/algorithm.rs:23-28 | the subsets of a split over duplicate-free variants partition the data: the subset sizes add up to the data size |
| Scoring.GainOfConstantAttribute | src/algorithm.rs:16-32 | splitting on an attribute on which all records agree gains exactly 0 |
| Scoring.GainCanBeNegative | src/algorithm.rs:5-32 | with `term(1) = 0` and `term(2) = -2`, a pure two-record set has entropy -2, and splitting it into singletons gains -2 |
| Tree.Eval | src/algorithm.rs:137-154 | an answer of `eval` is a label stored in the tree |
| Tree.TestAgreesWithEval | src/algorithm.rs:119-154 | `test` equals `eval(a) == o` wherever `eval` answers; it is `false` where `eval` meets a node with neither attribute nor outcome; otherwise it fails with `eval`'s error |
| Tree.QueriesIgnoreUsed | src/algorithm.rs:113-154 | a tree whose used-attribute sets are cleared, as serde reloads it, answers every `eval` and `test` as the original does |
| Tree.AnswersEval | src/algorithm.rs:137-154 | on a tree where every reachable node has an outcome or a child for each variant, `eval` never fails on a row of the universe |
| Induction.UnusedShrinks | src/algorithm.rs:81-86 | marking the chosen attribute used strictly shrinks the set of unused attributes: the termination measure of `id3` |
| Induction.MaxByLast | src/algorithm.rs:65-71 | `max_by` over the unskipped positions is `None` exactly when all are skipped; otherwise it is an unskipped position of maximal score, and every later unskipped score is strictly smaller |
| Induction.BestAttr | src/algorithm.rs:65-71 | a split attribute exists exactly when there is data and an unused attribute; it is in range and unused |
| Induction.BestAttrHasBestGain | src/algorithm.rs:65-71 | the chosen attribute has the highest score among unused ones, and every later unused one scores strictly lower |
| Induction.FirstUnknown | src/algorithm.rs:47-49 | there is an offending label exactly when some record's label is outside the universe, and it is such a label |
| Induction.Tally | src/algorithm.rs:45-49 | the `outcome_counts` map built by the increment loop: its keys are exactly the labels of the universe |
| Induction.TallyIsCount | src/algorithm.rs:45-49 | after the loop each label's entry equals the number of records carrying it, so the per-record increments agree with the filter count of `entropy` (line 8) |
| Induction.OutcomeCounts | src/algorithm.rs:45-50 | the values `max_by_key` compares: one per label of the universe, in universe order, each the number of records with that label, established through `TallyIsCount` |
| Induction.CommonOutcome | src/algorithm.rs:44-51 | the vote succeeds exactly when all labels are known and the universe is non-empty, and then names a label of the universe; an unknown label is reported as one that occurs; the `NoOutcomes` error arises only when both the universe and the data are empty (with data, an empty universe fails as `UnknownOutcome`) |
| Induction.CommonOutcomeIsMajority | src/algorithm.rs:44-51 | the voted label has a count no other label of the universe exceeds, and every later label in universe order has a strictly smaller count |
| Induction.MajorityFromCounts | src/algorithm.rs:45-50 | a position of maximal count that beats every later count names a majority label |
| Induction.Id3 | src/algorithm.rs:35-107 | construction from non-empty data whose labels are all in the universe never aborts |
| Induction.SplitOn | src/algorithm.rs:81-105 | the split node is built whenever the labels are in the universe |
| Induction.Children | src/algorithm.rs:84-105 | the loop over the variants never aborts when the labels are in the universe |
| Induction.Child | src/algorithm.rs:85-103 | a child is built whenever the labels are in the universe |
| Id3Properties.ChildrenShape | src/algorithm.rs:84-105 | one child per variant, keyed by the variant, in variant order, each the `Child` of its variant |
| Id3Properties.ExhaustedGivesFirstLabel | src/algorithm.rs:53-56 | with every attribute used, the node is a leaf with the first record's label whatever the prune depth, and empty data aborts |
| Id3Properties.PruneGivesMajority | src/algorithm.rs:44-63 | at the prune depth with attributes left, the node is a leaf with a majority label, and the build aborts exactly when a label is unknown or the universe is empty |
| Id3Properties.NothingToSplitGivesEmptyNode | src/algorithm.rs:65-73 | with no data, or no unused attribute, the node stays empty |
| Id3Properties.SplitIsSplitOn | src/algorithm.rs:53-81 | a node with a split attribute comes from non-empty data past both leaf rules, on the attribute `max_by` chose |
| Id3Properties.SplitOnShape | src/algorithm.rs:81-105 | on attribute `b`: `attr = b` and `used` grows by `b`; the children keys are exactly `variants[b]` in order; each non-empty child is `id3` one level down on exactly the records with that value; an empty subset leaves an empty child; the node has an outcome exactly when some variant has no records, and it is then the first record's label |
| Id3Properties.SplitShape | src/algorithm.rs:81-105 | the same shape for any split node `Id3` returns, with the attribute unused and in range |
| Id3Properties.SplitChild | src/algorithm.rs:84-104 | child `i` of a split node is the empty node or the tree built one level down from the records carrying the `i`-th variant |
| Id3Properties.SplitsOnBestGain | src/algorithm.rs:53-82 | past both leaf rules, on non-empty data with known labels and attributes left, `id3` splits, and on an unused attribute of maximal information gain, the last such on a tie |
| Id3Properties.LeafShape | src/algorithm.rs:53-73 | a node without a split attribute has no children; on non-empty data whose used attributes are in range it has an outcome; on non-empty data any outcome it has is carried by some record |
| Id3Properties.Id3Answers | src/algorithm.rs:53-105 | on non-empty data with known labels the build succeeds, and every node a row can reach has an outcome or a child for every variant |
| Id3Properties.SplitKeys | src/algorithm.rs:84-104 | the children of a split node are keyed by the variants of its attribute |
| Id3Properties.NotStarved | src/algorithm.rs:91-92 | a split node without an outcome has records behind every variant |
| Id3Properties.Id3NeverFailsEval | src/algorithm.rs:53-154 | a tree built from well-formed data never fails `eval` on a row whose values lie in the variant universe |
| Id3Properties.Id3Labels | src/algorithm.rs:44-105 | every label stored in a tree built from non-empty data is the label of one of its records |
| Id3Properties.SplitFallback | src/algorithm.rs:91-92 | the outcome of a split node, when it has one, is the first record's label |
| Id3Properties.PureDataAnswersItsLabel | src/algorithm.rs:53-154 | a tree built from data that all carries one label answers that label whenever it answers |
| Id3Properties.BudgetStep | src/algorithm.rs:82-99 | a split below the prune depth, or with attributes left, leaves one level less of budget below it |
| Id3Properties.Id3Depth | src/algorithm.rs:53-105 | a tree built within a depth budget is no deeper than it |
| Id3Properties.ChildrenDepth | src/algorithm.rs:84-105 | every child the variant loop builds stays within the budget left below a split |
| Id3Properties.ChildDepth | src/algorithm.rs:85-103 | a single child stays within that budget |
| Id3Properties.PruneBoundsDepth | src/algorithm.rs:58-63 | with `prune = Some(p)` and a start at depth `d <= p`, the tree is within every depth budget of at least `p - d` levels |
| Id3Properties.AttributesBoundDepth | src/algorithm.rs:53-86 | the tree is at most as deep as the number of attributes unused at its root |
| Id3Properties.StarvedSplitAnswersFirstLabel | src/algorithm.rs:91-92 | when some variant of the split attribute has no records, `eval` answers every row with the first record's label |
| Id3Properties.UnseenValueIsReported | src/algorithm.rs:119-148 | at a split node without outcome, a row value outside the variants makes `eval`, and `test` for every expected label, fail with that value, never guess |
| Id3Properties.StarvedSplitMisclassifiesTrainingRow | src/algorithm.rs:91-92 | trained on the consistent rows `x -> yes` and `z -> no` of one attribute whose universe also holds `y`, the tree splits, gets the fallback `yes`, and answers the `z` row with `yes` |
| Loader.Split | src/main.rs:104 | `split(",")` yields at least one field, no field holds the separator, and joining the fields gives back the token |
| Loader.SplitJoin | src/main.rs:104 | splitting a join of separator-free fields gives back the fields |
| Loader.SplitWhole | src/main.rs:104 | a token without a comma is a single field |
| Loader.ParseRow | src/main.rs:101-115 | there is one attribute fewer than there are fields, and no field holds a comma; with `first` the fields are outcome then attributes, otherwise attributes then outcome; a token without a comma gives no attributes and the whole token as outcome |
| Loader.ParseRowRoundTrip | src/main.rs:103-114 | parsing a record written out in either column order gives the record back |
| Loader.Insert | src/main.rs:141-143 | `HashSet::insert` keeps the set duplicate-free and adds exactly the new value |
| Loader.CollectUniverses | src/main.rs:137-144 | empty data aborts, and so does a row wider than the first, reported at the first such row; otherwise there is one variant set per position of the first record holding exactly the values seen there, and the outcome set holds exactly the labels seen |
| Loader.UniverseCoversData | src/main.rs:137-144 | every label is in the outcome universe and every value lies in its position's variant set, discharging the `unwrap` of src/algorithm.rs:48 |
| Loader.TrainingData | src/main.rs:118-126 | one training record per drawn index, each a record of the data |
| Loader.TestData | src/main.rs:128-133 | held-out records are records of the data, and there are as many as data indices not drawn |
| Loader.TestDataKeepsUnpicked | src/main.rs:128-133 | every record whose index was not drawn is held out |
| Loader.DistinctSize | src/main.rs:119-126 | distinct drawn indices make a set of the same size |
| Loader.SplitSizes | src/main.rs:118-133 | with distinct drawn indices, training size plus test size is the data size |
| Pipeline.TrainedTreeClassifiesEveryRow | src/main.rs:137-213 | training on any non-empty sample of a well-formed data set succeeds; the tree answers every record, held out or not, with a label of the sample; `test` on each record is the comparison of that answer with the record's label |

## Left out

- Argument parsing, help text, file reading, printing, the verbose trace and the `Debug` output. These are I/O.
- The `f32` accuracy percentages. These are I/O.
- Random sampling of the training rows and the `f64` ratio that sizes the sample. The drawn indices `picks` are an input. `TrainingData` takes them in draw order, and `SplitSizes` assumes they are distinct, as the `contains` check of the sampling loop makes them.
- JSON saving and loading through serde, a foreign library. What remains of it is `Tree.QueriesIgnoreUsed`: the skipped `used_attrs` field does not affect queries.
- `f64` arithmetic: the logarithm, the division and NaN, with the `partial_cmp().expect` panic it could cause. The per-count term is the parameter `term`. `Share` and `Scale` are exact real division and product.
- `Induction.Id3`: ranks attributes by the parameter `gain`. `InformationGainOf` is the source's ranking. Every property holds for any ranking, and `Id3Properties.SplitsOnBestGain` states the choice in terms of information gain.
- Hash iteration orders. Each hash set and the label-count map is iterated in one fixed order: the order of its sequence. So the order of the children, and the winner of a tie between equal counts, are those of that order, not of Rust's randomised hashing.
- Rows of other widths than `variants`. The model requires every training row to have exactly `|variants|` values (`UniformWidth`); `main.rs` only rules out rows wider than the first (`Loader.CollectUniverses`). In the program a training row narrower than the first training row makes the index at src/algorithm.rs:25 or 88 panic, unless the prune depth is reached first (src/algorithm.rs:58-63 then returns a majority leaf before any row is indexed). If instead all training rows are equally narrower than `variants`, nothing panics during the build: the candidate range at src/algorithm.rs:65 is `0..data.first().len()`, so a node whose narrower attributes are all used, and which neither the prune depth nor a fallback outcome stops, stays `Node::default()`. `eval` panics at src/algorithm.rs:152 on any row that reaches such an empty node, and `test` answers `false` there (line 134), so `Id3Properties.Id3NeverFailsEval` can fail on such data; the model does not cover this case.
- `Id3Properties.LeafShape`: on empty data at the prune depth, `get_common_coutcome` returns the last label of the universe with count 0. So "the leaf label is carried by a record" is stated for non-empty data only.
- `Id3Properties.PruneBoundsDepth` and `Id3Properties.AttributesBoundDepth`: state the bound for every budget `h` at least the difference, rather than for the difference itself. The two are equivalent, since a tree within depth `h` is within every larger depth.
- The code makes no special leaf for pure data or for zero entropy. Construction keeps splitting until attributes run out or the prune depth is reached. The model follows the code (`Id3Properties.PureDataAnswersItsLabel` states what pure data does give).
- The code's entropy is not normalised by the data size, so it is not zero on pure data and information gain can be negative (`Scoring.GainCanBeNegative`). The model keeps the code's formula and states neither "gain is non-negative" nor "entropy is zero exactly on pure data".
