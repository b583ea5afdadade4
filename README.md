# Interval-rule pipeline — a verified Dafny model

This project models the rule pipeline of a small machine-learning toolkit built around
*interval rules*. A rule gives a closed interval `[lo, hi]` for every feature of an example.
Open sides are the sentinels −∞ and +∞.

| module (file) | source | what it models |
|---|---|---|
| `Results` (results.dfy) | — | the exceptions the program aborts with, and the `Option` and `Result` types |
| `Dicts` (dicts.dfy) | — | Python dictionaries as a map plus the insertion order of its keys |
| `Bounds` (bounds.dfy) | — | bounds with −∞/+∞, and the closed-box acceptance test |
| `ArgMax` (argmax.dfy) | — | the first position of a maximum (`max` with a key, `np.argmax`) |
| `RepPar` (reppar.dfy) | `src/reppar.py` | the report parsers: `_build_rule`, the header checks, `_table2rules`, the merge of tables in `RulesParser.__init__`, `ClassRulesParser` |
| `TabPar` (tabpar.dfy) | `src/tabpar.py` | `TabDataParser.__init__`: the header and the split of the lines into classes |
| `ProcRules` (procrules.dfy) | `src/procrules.py` | `ProcRules.__init__`: the class checks, the running min/max, `minmax`, the in-place rewrite of the rules |
| `RulStat` (rulstat.dfy) | `src/rulstat.py` | `apply_rule` and the contingency counts of `RulesStats.__init__` |
| `Misc` (misc.dfy) | `src/misc.py` | the second copy of `apply_rule` |
| `RCluster` (rcluster.dfy) | `src/rcluster.py` | `NRules`: the threshold grid and `restore` |
| `Logical` (logical.dfy) | `src/logical.py` | `SimpleVoting`: vote shares and the first best class |

## How the model is built

**State and loops.** The source works by changing state step by step, and so does the model.
- Every loop of the source that the model covers is a `while` loop in a `method`, with two exceptions:
  - the two-pass loop `for i in [-np.Inf, np.Inf]` at src/procrules.py:52-54 is the function `ProcRules.Normalise`, one `ProcRules.Substitute` call per pass;
  - the loop at src/reppar.py:139-140 that turns each class's rules into a `list` is not modelled, because the rules are already sequences (see "## Left out").
- A method is proved against a ghost specification function (`ensures r == BuildRuleSpec(fs, n)`) or against an explicit postcondition. Lemmas then state what that function means.
- Long loop bodies are split into methods of their own:
  - `RepPar.StartGroup`, `RepPar.AdvanceRow`, `RepPar.GroupTable`;
  - `RepPar.MergeStep`, `RepPar.MergeTableInto`, `RepPar.AppendNew`;
  - `RepPar.SectionRules`;
  - `TabPar.ReadClass`, `TabPar.ReadBlock`;
  - `ProcRules.CheckClasses`, `ProcRules.MinMax`, `ProcRules.RewriteEntry`;
  - `RulStat.TallyClass`, `RulStat.TallyRule`, `RulStat.TallyRules`;
  - `Logical.CountVotes`, `Logical.PredictOne`;
  - `RCluster.Stats`, `RCluster.Scores`.

  Each of them is one loop, or one loop body, of the source, with its own contract.

**Objects updated in place.**
- The parsed report is a class, `RepPar.Report`. `ProcRules.Process` rewrites the report's `rules` field in place, as `ProcRules.__init__` rewrites the parser's dictionary.
- `SimpleVoting` is a class whose `labels` field `Fit` resets and refills.
- `NRules` is a class whose `clusterCenters` field `Restore` rebuilds.

**Errors.** Apart from the cases listed under "## Left out", every exception the source can raise on its inputs is a `Result` error. Those cases are the length assertions of `apply_rule`, which are preconditions; the unmatched `rulep.search`; and numpy's shape errors in `restore`. The modelled exceptions are:
- failed `assert`s;
- `IndexError` past the end of a list;
- `KeyError`;
- `AttributeError` when a table runs out of rows;
- `TypeError` for `int(None)`;
- `ValueError` from `int('')`, from numpy, or from `max` of an empty dictionary;
- `NameError` for a loop variable after a loop that never ran;
- `ZeroDivisionError`;
- the `sys.exit` call.

Each one is raised in the same order as in the source.

**Numbers.** Numbers are exact reals, compared but never rounded.

### Behaviour kept as the code has it

The model keeps the following behaviours of the code, including the surprising ones:
- **The class tag keeps only its last digit.** The class regex `(\d)*` keeps only the last digit, so "(класс 12)" is class 2 (`RepPar.ClassTag`).
- **The switching row's rule is dropped.** In `_table2rules`, the row at which the class changes only closes the current group. Its own rule is never built (`RepPar.GroupRowsSwitch`, `RepPar.GroupRowsSwitchIgnoresText`, and the example `RepPar.Table2RulesSwitchDropsRow`).
- **The switch message can raise KeyError.** The log message at a class switch evaluates `rules[idx - 1]` eagerly, whatever the log level. A switch to a class whose predecessor number has not been stored therefore raises `KeyError` (src/reppar.py:173-177; `RepPar.Table2RulesSkippedClassFails`).
- **Sections are labelled by position.** `ClassRulesParser` labels its sections 1..nclasses by position, not by the number in the section title.
- **The normaliser checks the data classes only.** `ProcRules` checks only that every *data* class has rules. A rule class without data fails later with `KeyError` at the data lookup of src/procrules.py:50, after its entry has already been reshaped.
- **The normaliser rewrites the parser's rules.** `self.rules` at src/procrules.py:19 is the parser's own dictionary, so the reshape and the replacement of the infinities at lines 47-54 change the parser's rules in place (`ProcRules.Process` modifies the report).
- **Malformed input ends in `sys.exit` or a failed `assert`.** A malformed bound expression calls `sys.exit` (src/reppar.py:84-86), and a header count below 1 fails the `assert` of src/reppar.py:32.
- **The threshold grid includes both ends.** The grid is `np.linspace(0.1, 0.9, 36)`, which includes both endpoints.

## Model

| member | source | states |
|---|---|---|
| `RepPar.BuildRule` | src/reppar.py:44-103 | the loop over the matched expressions, the trailing padding and the length assertion compute exactly `BuildRuleSpec` |
| `RepPar.AssembleBuilt` | src/reppar.py:88-93 | while the indices increase, the pairs collected so far number exactly the last index seen, and each sits at its feature's position; once the indices stop increasing, the list is longer than the last index |
| `RepPar.BuildRuleLength` | src/reppar.py:88-102 | when every expression classifies, the rule is built (has n pairs) if and only if the indices strictly increase within 1..n. It then equals the rule the ranges describe; otherwise the length assertion fails |
| `RepPar.BuildRulePlaces` | src/reppar.py:74-93 | in a built rule, every matched expression's pair sits at its 1-based index, and that index lies in 1..n |
| `RepPar.BuildRuleFillsGaps` | src/reppar.py:88-100 | every feature no expression mentions (skipped between matches or after the last) gets (−∞, +∞) |
| `RepPar.BuildRuleNoMatches` | src/reppar.py:95-100 | a text without bound expressions gives n open pairs |
| `RepPar.BuildRuleProper` | src/reppar.py:74-83 | no built rule has +∞ as a lower end or −∞ as an upper end |
| `RepPar.BuildRuleExample` | src/reppar.py:44-103 | "1.0<=X2<=5.0" with three features gives [(−∞,+∞), (1.0,5.0), (−∞,+∞)] |
| `RepPar.ClassifyBoth` | src/reppar.py:74-77 | `lo <d> Xj <d> hi` gives feature j the pair (lo, hi) |
| `RepPar.ClassifyOneSided` | src/reppar.py:78-83 | `Xj <d> hi` gives (−∞, hi) and `lo <d> Xj` gives (lo, +∞) |
| `RepPar.ClassifyMalformed` | src/reppar.py:84-86 | an expression that is neither three pieces nor has the feature in one of its first two pieces ends the run with `sys.exit` |
| `RepPar.ClassTagLastDigit` | src/reppar.py:151-155 | the class tag is the last captured digit, and a label without digits raises `TypeError` |
| `RepPar.StartGroup` | src/reppar.py:153-156 | the first row opens the first group with its class and its built rule, or fails with the row's error |
| `RepPar.AdvanceRow` | src/reppar.py:158-177 | a row of the current class appends its rule; a row of another class stores the group, starts an empty one, and raises `KeyError` when class `tag − 1` is not stored |
| `RepPar.GroupTable` | src/reppar.py:146-177 | the row loop computes `Grouped`: the first error among the rows read, `AttributeError` when there are fewer than `nrules` rows, otherwise the final grouping |
| `RepPar.Table2Rules` | src/reppar.py:142-187 | `_table2rules` computes `Table2RulesSpec`: the stored groups plus the last one, or the first error |
| `RepPar.Table2RulesOneClass` | src/reppar.py:158-180 | a table whose rows all carry class d yields the one class d with every row's rule, in order |
| `RepPar.Table2RulesSwitchDropsRow` | src/reppar.py:163-172 | rows (class 1, rule a), (class 2, anything) give {1: [a], 2: []}; the switching row's text is never parsed |
| `RepPar.Table2RulesSkippedClassFails` | src/reppar.py:171-177 | rows of class 1 followed by a row of class 3 raise `KeyError` |
| `RepPar.GroupRowsStep` | src/reppar.py:158-177 | the grouping after k + 1 rows is one step of row k from the grouping after k rows |
| `RepPar.GroupRowsErrStep` | src/reppar.py:158-177 | an exception raised at some row ends the loop: the error after k rows is the error after k + 1 |
| `RepPar.GroupRowsPrefix` | src/reppar.py:153-177 | the grouping after k rows depends only on those k rows |
| `RepPar.GroupRowsContinue` | src/reppar.py:163-164 | after any prefix, a row of the current class appends its rule to the current group, or raises its rule's error |
| `RepPar.GroupRowsSwitch` | src/reppar.py:165-177 | after any prefix, a row of another class stores the group just closed under the old class and keeps the other stored groups. The new group is empty with the new class, or `KeyError` is raised when class tag − 1 was never stored |
| `RepPar.GroupRowsSwitchIgnoresText` | src/reppar.py:165-172 | at any class switch, replacing the switching row's text changes nothing: its rule is never built |
| `RepPar.AdvanceSwitchIgnoresText` | src/reppar.py:165-177 | one switching step does not depend on the switching row's text |
| `RepPar.Table2RulesKeysAreTags` | src/reppar.py:155-180 | every class of a table's dictionary is the tag of one of its rows |
| `RepPar.MergeRulesMembers` | src/reppar.py:128-130 | merging keeps the known rules in front, in order, and afterwards the list holds exactly the known and the incoming rules |
| `RepPar.MergeRulesNoDuplicates` | src/reppar.py:128-130 | merging into a list without duplicates adds none |
| `RepPar.AppendNew` | src/reppar.py:128-130 | the `if rule not in ...: append` loop computes `MergeRules` |
| `RepPar.MergeTable` | src/reppar.py:121-137 | after a table, a known class holds the merged list, an unseen class holds the table's list unchanged, other classes keep theirs, and no other key appears |
| `RepPar.MergeTableInto` | src/reppar.py:121-137 | the loop over one table's classes computes the merged dictionary `MergeInto` |
| `RepPar.MergeStep` | src/reppar.py:118-137 | one table, parsed and merged, advances the fold of the parsed tables by one |
| `RepPar.MergeTables` | src/reppar.py:113-140 | `RulesParser.__init__` computes `RulesTablesSpec`: `AssertionError` without tables, otherwise the tables parsed and merged in document order, with the first error winning |
| `RepPar.SectionRules` | src/reppar.py:209-219 | the rule rows of a section: each needs four cells, and the third builds the rule; the first error wins |
| `RepPar.ClassSections` | src/reppar.py:197-221 | computes `ClassSectionsSpec`: `AssertionError` unless there are exactly nclasses sections, otherwise section i holds the rules of class i + 1 |
| `RepPar.ClassSectionsLabels` | src/reppar.py:197-221 | the keys are exactly 1..nclasses in order, and class i + 1 holds the rules of section i |
| `RepPar.NewRulesParser` | src/reppar.py:30-32 | the header assertion `nclasses >= 1 and nfeatures >= 1` comes first; then the merged tables, stored as parsed rules in a fresh report |
| `RepPar.NewClassRulesParser` | src/reppar.py:190-221 | the header assertion, then one entry per section, stored in a fresh report |
| `TabPar.ReadBlock` | src/tabpar.py:35-39 | the rows of one block succeed if and only if every row has nfeatures values, and are then the block's lines in file order |
| `TabPar.ReadClass` | src/tabpar.py:32-41 | class i + 1 succeeds if and only if `cumcount[i + 1]` exists and each of its rows has nfeatures values; it then receives exactly its `cumcount[i+1] − cumcount[i]` lines, in order |
| `TabPar.ParseTab` | src/tabpar.py:16-41 | succeeds if and only if the file is decodable. It then has nfeatures = header[0], nclasses = header[1] and hole = header[−1]; the keys are exactly 1..nclasses in order; class i + 1 holds its block, with one separator line skipped after each block |
| `TabPar.ParseTabExample` | src/tabpar.py:17-41 | header `3 2 0 2 3 -1` with two rows, a blank line, one row and a blank line gives classes [1, 2], with 2 and 1 examples |
| `ProcRules.CheckPassed` | src/procrules.py:22-24 | when the checks pass, every data class has examples and a non-empty list of parsed rules |
| `ProcRules.CheckClasses` | src/procrules.py:22-28 | fails exactly when a data class's check fails (with that check's error) or there is no class (`NameError`); otherwise returns the first example of the last class |
| `ProcRules.ElemMin` | src/procrules.py:36 | each entry is the smaller of the two, and is one of them |
| `ProcRules.ElemMax` | src/procrules.py:37 | each entry is the larger of the two, and is one of them |
| `ProcRules.MinMax` | src/procrules.py:28-37 | succeeds if and only if every example has the first one's length; min and max then bound every example (hole rows included), and each bound is some example's value |
| `ProcRules.Interleave` | src/procrules.py:39-41 | `minmax` has 2F entries, with min[f] at 2f and max[f] at 2f+1 |
| `ProcRules.Flatten` | src/procrules.py:46-49 | a rule of F pairs becomes a row of 2F bounds, with lo at 2f and hi at 2f+1 |
| `ProcRules.NormaliseEntries` | src/procrules.py:52-54 | finite bounds are unchanged, each infinite bound becomes minmax at its position, and no infinity remains |
| `ProcRules.NormaliseIdempotent` | src/procrules.py:52-54 | a second replacement pass changes nothing |
| `ProcRules.NormaliseKeepsVerdict` | src/procrules.py:52-54 | on any point inside the data bounds, the normalised row accepts exactly when the original row does |
| `ProcRules.ProcessedRuleKeepsVerdicts` | src/procrules.py:45-54 | a parsed rule, flattened and normalised, accepts exactly the examples the parsed rule accepts |
| `ProcRules.NormaliseExample` | src/procrules.py:39-54 | with data bounds [0,10] on every feature, [(−∞,+∞), (1,5), (−∞,+∞)] normalises to [0, 10, 1, 5, 0, 10] |
| `ProcRules.RewriteEntry` | src/procrules.py:45-54 | one rule class: the error of its reshape, data lookup or width check; on success the entry becomes the normalised rows, and the other entries and the key order stay as they were |
| `ProcRules.RewriteRules` | src/procrules.py:45-54 | the loop over the rule classes reports the first failing class, and on success every entry is rewritten in place |
| `ProcRules.Process` | src/procrules.py:14-54 | fails exactly as `Failure` says; on success min/max bound every example tightly, minmax interleaves them, and the report's rules are rewritten in place with their keys kept |
| `RulStat.ApplyRule` | src/rulstat.py:14-24 | the early-return walk returns true if and only if every feature lies in its closed interval |
| `RulStat.AcceptedCount` | src/rulstat.py:41-45 | the accepted count never exceeds the number of examples |
| `RulStat.RejectedCount` | src/rulstat.py:41-45 | the rejected count never exceeds the number of examples |
| `RulStat.CountsPartition` | src/rulstat.py:41-45 | the accepted and the rejected counts add up to the number of examples of the class |
| `RulStat.Tally` | src/rulstat.py:40-45 | accepted + rejected equals the number of examples of the class |
| `RulStat.TallyExtremes` | src/rulstat.py:40-45 | a rule that accepts every example counts (n, 0); one that rejects every example counts (0, n) |
| `RulStat.TallyClass` | src/rulstat.py:40-45 | the inner loop counts exactly the `Tally` pair: its two counters are the numbers of accepted and of rejected examples, each counted on its own |
| `RulStat.RowOfStep` | src/rulstat.py:38-40 | tallying the next data class extends the statistics row by that class, under its key |
| `RulStat.TallyRule` | src/rulstat.py:37-45 | one rule's `stats` has one pair per data class, in the data's order, each the class's tally |
| `RulStat.TallyRules` | src/rulstat.py:36-46 | one row per rule of the class, in rule order |
| `RulStat.RulesStats` | src/rulstat.py:26-46 | `stats` has the rule classes as keys in order, and each holds one statistics row per rule |
| `Misc.ApplyRule` | src/misc.py:1-10 | returns true if and only if every feature lies in its closed interval |
| `Misc.Agree` | src/misc.py:1-10 | both copies of `apply_rule` agree on every input |
| `Bounds.EndpointsAccepted` | src/rulstat.py:20 | a value equal to either end of its interval is accepted |
| `Bounds.InvertedIntervalRejects` | src/misc.py:6 | a rule with an interval whose lower end exceeds its upper end rejects everything |
| `Bounds.WideningKeepsAcceptance` | src/misc.py:6 | widening intervals never turns an acceptance into a rejection |
| `ArgMax.FirstArgMax` | src/logical.py:33 | the position holds a maximum, and every earlier position holds a strictly smaller score |
| `RCluster.Thresholds` | src/rcluster.py:14 | 36 strictly increasing thresholds from 0.1 to 0.9, both included |
| `RCluster.NRules.constructor` | src/rcluster.py:12-14 | the restorer holds the index and the threshold grid |
| `RCluster.MaskShrinks` | src/rcluster.py:29 | a larger threshold selects a subset, and strictly fewer where a weight lies between the two |
| `RCluster.Unique` | src/rcluster.py:35 | the distinct labels, strictly ascending, and no others |
| `RCluster.CountsAddUp` | src/rcluster.py:36-40 | a label's in-mask and out-of-mask counts add up to its number of examples |
| `RCluster.Contingency` | src/rcluster.py:34-46 | one pair per distinct label |
| `RCluster.ContingencySums` | src/rcluster.py:34-40 | each pair sums to its label's number of examples |
| `RCluster.Stats` | src/rcluster.py:34-40 | the loop over the distinct labels builds exactly `Contingency` |
| `RCluster.Scores` | src/rcluster.py:27-46 | one score per threshold: 0 for an empty mask, with the criterion not called; otherwise the criterion's value on the contingency pairs |
| `RCluster.ChosenIsFirstBest` | src/rcluster.py:48 | the chosen threshold scores at least as much as every other, and strictly more than every earlier one |
| `RCluster.MaskedPositions` | src/rcluster.py:52-53 | the positions where the mask is true: strictly increasing, each one masked, and every masked position among them |
| `RCluster.Selected` | src/rcluster.py:52-53 | `data[mask, :]` is exactly the masked rows in data order: one row per masked position, the r-th being the row at the r-th masked position |
| `RCluster.MaskedAreSelected` | src/rcluster.py:52-53 | every masked example is selected |
| `RCluster.SelectedRows` | src/rcluster.py:52-53 | the selected rows have the data's F columns |
| `RCluster.SelectedNonEmpty` | src/rcluster.py:50-53 | a non-empty mask selects some rows |
| `RCluster.ColMin` | src/rcluster.py:52 | the column minimum is at most every row's value and is attained |
| `RCluster.ColMax` | src/rcluster.py:53 | the column maximum is at least every row's value and is attained |
| `RCluster.BoxOf` | src/rcluster.py:52-58 | the emitted rule has 2F entries |
| `RCluster.BoxIsTightCover` | src/rcluster.py:52-58 | the emitted rule accepts every selected row, and each of its bounds is attained by one of them |
| `RCluster.RestoredCount` | src/rcluster.py:25-61 | at most one rule per center, each of 2F entries |
| `RCluster.CenterRuleAccepts` | src/rcluster.py:48-58 | a center whose chosen mask selects an example emits one rule, and that rule accepts the example |
| `RCluster.NRules.Restore` | src/rcluster.py:19-61 | `cluster_centers_` restarts empty and ends as the rules of the centers in order; an empty chosen mask contributes none |
| `Logical.Votes` | src/logical.py:23-27 | a class has at most as many votes as rules |
| `Logical.VotesExtremes` | src/logical.py:24-27 | rules that all accept give one vote each; rules that all reject give none |
| `Logical.Share` | src/logical.py:28-30 | each share lies in [0, 1] |
| `Logical.PredictIsFirstBest` | src/logical.py:33 | the predicted label is a class of the rules, has the largest share, and every class before it in the dictionary's order has a smaller share |
| `Logical.UnanimousClassWins` | src/logical.py:23-33 | a class whose every rule accepts the example has share 1, and so does the predicted class |
| `Logical.FitLabels` | src/logical.py:20-35 | `fit` gives one label per example, in input order, each a class of the rules |
| `Logical.CountVotes` | src/logical.py:23-27 | `votes[key]` is the number of the class's rules that accept x |
| `Logical.PredictOne` | src/logical.py:22-33 | an empty rule list raises `ZeroDivisionError`; no class at all raises `ValueError`; otherwise the result is the first class with the largest share |
| `Logical.SimpleVoting.constructor` | src/logical.py:16-17 | the classifier keeps the rules it is given |
| `Logical.SimpleVoting.Fit` | src/logical.py:19-35 | computes `FitSpec`: no examples give no labels; otherwise an empty rule list raises `ZeroDivisionError`, no class raises `ValueError`, and every example gets its prediction. The labels field holds the result, and the rules are untouched |

## Left out

**Decoding and parsing.**
- Report reading: the document, its cp1251 decoding and the tree navigation are not modelled (src/reppar.py:22-31, 113-115, 146-161, 197-219). A report arrives as header counts, tables of rows and sections of rows.
- The regular expressions of `_build_rule` and of the class label are not modelled. Each row arrives as the captured tag digits plus the matched bound expressions, each already split at the delimiter into stripped pieces.
  - The cases in which `rulep.search` matches nothing (an `AttributeError`) are therefore not represented.
  - Neither is a row with fewer than two strings (an `IndexError`).
- `ClassRulesParser`'s stop condition on `tr_rule.string` is not modelled: each section arrives as its list of rule rows.
- Number parsing (`int(...)`, `float(...)`) is not modelled: the tab file is its header integers and its lines already split into numbers, and reading past the end gives an empty line.
- The loop at src/reppar.py:139-140 that converts each class's rules to a `list` is not modelled: the rules are already sequences, so it changes nothing.
- Logging and the hole warnings are not modelled. The exception is the eager `rules[idx - 1]` of src/reppar.py:173-177, which can raise and is modelled.

**Numpy numerics.**
- Floating point: rounding, NaN and the bit pattern of the `linspace` grid are not modelled. The thresholds are the exact rationals 0.1 + 0.8k/35.
- The numpy array conversion of the data at src/procrules.py:50 leaves the values unchanged, and is not modelled.

**Outside the core.**
- The KMeans fitting: the centers are an input of `Restore`.
- The criteria `infogain` and `statcriterion`: they are not defined in src/rulstat.py, so the criterion is a function parameter.
- The unused `rulesbin`; src/experiment.py, src/datasplit.py, src/np2tab.py and src/log.py; every `__main__` block.

**Contracts weaker than the source, or conditions made preconditions.**
- ProcRules.Process: after an error it states only that the rules stay a valid dictionary with the same keys. It does not say which entries the source had already rewritten before raising.
- ProcRules.RewriteRules: on error the postcondition does not describe which entries were already rewritten.
- RulStat.ApplyRule: the length assertion of src/rulstat.py:16 is a precondition.
- Misc.ApplyRule: the length assertion of src/misc.py:2 is a precondition.
- RulStat.RulesStats: requires every rule to have 2F bounds and every example F values, because `apply_rule`'s assertion would otherwise fail.
- Logical.SimpleVoting.Fit: requires every rule to have 2F bounds and every example F values, for the same reason as `RulesStats`.
- Logical.SimpleVoting.Fit: before the first `fit` the Python object has no `labels` attribute; the model starts with no labels.
- RCluster.NRules.Restore: requires one center weight per example, one label per example and rows of F values. The numpy broadcasting errors for other shapes are not modelled, nor is `assert self.km is not None`, which always holds.
- RepPar.Table2RulesOneClass: stated for tables with exactly `nrules` rows. Extra rows are never read.
