# RUST-CBS in Dafny

A model of RUST-CBS, a multi-agent pathfinding solver. It plans one collision-free path per
agent on a grid, using conflict-based search (CBS) and its bounded-suboptimal variants:
ACBS, BCBS, DECBS, ECBS, HBCBS and LBCBS. The model also covers the Python tools that run
the experiments and aggregate their results.

Every repository file in the model has one Dafny module of its own:

- `Config` — `Config::new` and `Config::validate`: which suboptimality bounds each solver needs, and the range check on them.
- `GridMap` — tile parsing, neighbour lists and the per-goal Dijkstra heuristic of `src/map.rs`.
- `AStar` — the stand-alone Manhattan-distance A* of `src/astar.rs`.
- `Algorithm` and `SolverAlgorithm` — the focal conflict-count heuristics and the path rebuilt from a search's trace.
- `CommonLowLevel` and `CommLowLevel` — the orders of the low-level search nodes.
- `AlgorithmAStar` and `AlgorithmAStarFocal` — the time-expanded A* and focal A* searches of the MDD-based generation of the solver. Each is a specification function run for at most `fuel` expansions, plus a method with loop invariants proved to compute it.
- `SolverAStar` and `SolverAStarFocal` — the same searches of the older snapshot.
- `CommonHighLevel` (`src/common/highlevel.rs`), `CommHighLevel` (`src/solver/comm/highlevel.rs`) and `SolverCommon` (`src/solver/common.rs`) — the three generations of the high-level constraint-tree node:
  - constraint violation;
  - vertex, edge and target conflict detection;
  - cardinal types;
  - constraint insertion with target reasoning;
  - incremental cost update;
  - bypass patching;
  - the open and focal orders.
- `SolverHighLevel` — what the solvers share:
  - conflict choice;
  - the invariant every listed node keeps;
  - `pop_first` of a key-ordered list;
  - the focal threshold `cost <= f_min * w`;
  - the focal band.
- `SolverCbs`, `SolverAcbs`, `SolverBcbs`, `SolverDecbs`, `SolverEcbs`, `SolverHbcbs` and `SolverLbcbs` — each solver's `solve` loop, as imperative Dafny over its open, focal and closed lists.
- `Scenario`, `Yaml` and `Parse` — reading `.scen` lines into route buckets, and handing routes to agents by bucket or at random.
- `Stat`, `Experiment` and `Calculation` — the result aggregator (`tools/stat.py`), the experiment runner (`tools/experiment.py`) and the timeout tally (`tools/calculation.py`).
- `Ordering`, `Wrappers` and `Common` — shared vocabulary. Rust's derived and lexicographic orders are encoded as one total order on `Key`. `BTreeSet` and `BTreeMap` are maps from a node's key to the node.

The low-level searches called from the high level are an oracle `search`, from a `Query` that
records which search runs and with which arguments. Each solver loop gets a `fuel` bound on its
iterations. Its outcome is one of:

- `Returns`: the value the source returns;
- `Panics`: the panic the source reaches (`UnwrapNone`, `Unreachable`, `IndexOutOfBounds`, ...);
- `OutOfFuel`.

Every solver's `Solve` states the following:

- a returned solution has one path per agent and the paths are collision-free;
- which inputs panic, and with which panic.

Some consequences of the source as written are proved and not corrected:

- `SolverAcbs.Solve`: ACBS builds its root with solver name "acbs", which `new` does not dispatch, so every non-empty instance panics.
- `SolverHbcbs.Solve`: an HBCBS node's cost can exceed the sum of its path costs after a bypass.

Where "## Findings" lists a bug, the model holds the code as written and the corrected code side by side. The searches and solvers are built on the corrected member, and "## Left out" names, member by member, what they therefore do not reproduce of the source.

Two behaviours of `tools/stat.py` worth noting:

- A censored run's time becomes `MAX_INT`, like every other metric of the run, not the timeout duration.
- The summary rows are grouped by (solver, num_agents, op_PC, op_BC, op_TR), without the suboptimality bounds.

## Model

| member | source | states |
|---|---|---|
| Config.New | src/config.rs:105-123 | `sub_optimal` is stored as (high-level bound, low-level bound); solver, agent count and seed are copied, and `ToCli` reads back exactly the arguments given |
| Config.NewInjective | src/config.rs:105-123 | two argument sets that give the same configuration are equal: `new` copies every field |
| Config.Validate | src/config.rs:125-191 | a solver name other than the seven panics at `unreachable!()`, whatever the bounds; for the seven, accepted exactly when the bounds present are those the solver needs (none for cbs; low only for lbcbs/ecbs/decbs/acbs; high only for hbcbs; both for bcbs) and each present bound is at least 1.0; a presence error is reported exactly when the presence is wrong, before any value error; the low-level value is checked before the high-level one |
| Config.ExactlyOneAccepted | src/config.rs:172-188 | a bound of exactly 1.0 passes, although the message says "greater than 1.0" |
| CommonLowLevel.OpenOrderLexicographic | src/common/lowlevel.rs:36-50 | the open order is lexicographic on f_open ascending, then g descending, then position; it says Equal exactly when all three agree |
| CommonLowLevel.FocalOrderLexicographic | src/common/lowlevel.rs:86-101 | the focal order is lexicographic on f_focal, then f_open, then g descending, then position; it says Equal exactly when all four agree |
| CommonLowLevel.OpenEqAgreesWithOrder | src/common/lowlevel.rs:18-26 | when f_open is determined by position and g, open equality (position and g only) holds exactly when the order says Equal |
| CommonLowLevel.FocalEqAgreesWithOrder | src/common/lowlevel.rs:66-76 | under the same condition, focal equality (position, g, f_focal) holds exactly when the focal order says Equal |
| CommonLowLevel.OpenEqWeakerThanOrder | src/common/lowlevel.rs:18-26 | without that condition, two nodes can be equal as open nodes while the order ranks one below the other |
| CommonLowLevel.CreateOpenFocalNode | src/common/lowlevel.rs:109-129 | both wrappers hold the same node, with exactly the given position, costs and time step |
| CommonLowLevel.CreateOpenNode | src/common/lowlevel.rs:131-147 | the node has f_focal 0 and is otherwise the node `create_open_focal_node` builds |
| CommonLowLevel.CreateFocalNode | src/common/lowlevel.rs:149-166 | the focal wrapper is the one `create_open_focal_node` builds from the same arguments |
| CommLowLevel.OrderReversedOnF | src/solver/comm/lowlevel.rs:13-17 | a smaller f_cost ranks Greater, a larger one Less, and equal f_costs compare Equal whatever the other fields |
| CommLowLevel.EqualOrderingNotEquality | src/solver/comm/lowlevel.rs:3-17 | two nodes at different positions with the same f_cost compare Equal but are not `==` under the derived equality |
| Stat.MissingFrom | tools/stat.py:20-26 | the missing list holds exactly the required columns (all fourteen, the two MDD counters included) that the table lacks |
| Stat.LoadAndClean | tools/stat.py:28-60 | a `ValueError` naming the missing columns exactly when a required column is absent, before any cleaning; otherwise the same columns and rows, each row cleaned by `CleanRow`, and no costs cell left as text |
| Stat.CleanRowSpec | tools/stat.py:47-58 | a row whose costs text contains "timeout" gets costs and all seven metrics, `time(us)` included, set to `MAX_INT`; any other row gets its costs coerced and its metrics as read; no other column changes |
| Stat.ToNumericMarker | tools/stat.py:50 | "solvefailure" (like any non-numeric text) coerces to missing rather than raising |
| Stat.ToNumericIntText | tools/stat.py:50 | an integer written as text coerces back to that integer |
| Stat.DropNa | tools/stat.py:78 | `dropna` keeps exactly the cells that are not missing |
| Stat.NearestIndex | tools/stat.py:78 | the nearest-rank position round(q·(n−1)/100), rounding halves to even, is a valid index |
| Stat.NearestIndexMonotone | tools/stat.py:78 | a larger percentile never takes an earlier sorted position |
| Stat.ComputeStats | tools/stat.py:66-78 | the result is (NaN, NaN, NaN) exactly when the series is empty |
| Stat.ComputeStatsSpec | tools/stat.py:76-78 | every percentile is one of the non-missing values, P0 is their minimum, and P0 ≤ P50 ≤ P99 |
| Stat.GroupKeysSpec | tools/stat.py:90 | `groupby` lists each distinct key of the table's rows once and no other key |
| Stat.Group | tools/stat.py:90 | a group holds exactly the table's rows with that key |
| Stat.GroupNonEmpty | tools/stat.py:136 | every group `groupby` yields has at least one row |
| Stat.Successes | tools/stat.py:138-142 | the successful runs are exactly the rows whose time is not `MAX_INT`, and they and the timeouts make up the group |
| Stat.SuccessRateBounds | tools/stat.py:137-157 | `(1 − timeouts/len)·100` lies in [0, 100]; it is 100 exactly when no run timed out and 0 exactly when all did |
| Stat.StatsFrom | tools/stat.py:145-153 | one percentile triple per metric, in order, each over the successful runs' column; it raises exactly when numpy refuses one of the columns |
| Stat.Summarize | tools/stat.py:137-167 | the loop body computes the group's summary row |
| Stat.SummaryOfSpec | tools/stat.py:134-167 | a summary row carries its key, a success rate in [0, 100] and one triple per metric; the time triple is taken over the runs that did not time out, so a censored `MAX_INT` time never reaches it |
| Stat.CalculateSolverStats | tools/stat.py:123-169 | on success, exactly one summary per distinct (solver, num_agents, op_PC, op_BC, op_TR), in the order the keys first appear; an error only when some group's percentiles raise |
| Stat.RowsOf | tools/stat.py:114 | a solver's rows are exactly the group's rows naming that solver; for a missing solver value (NaN, which equals nothing) the selection is empty |
| Stat.SuccessRuns | tools/stat.py:99 | the successful cbs runs are exactly the cbs rows whose cost is not `MAX_INT` |
| Stat.Unique | tools/stat.py:104-110 | `unique()` lists each value of the column exactly once |
| Stat.MinNum | tools/stat.py:107 | the minimum is one of the numeric costs and at most each of them; none when every cost is missing |
| Stat.GroupWarningsSkipped | tools/stat.py:94-96 | a group with no cbs row, or whose cbs costs are all `MAX_INT`, warns about nothing |
| Stat.GroupDiscrepancySpec | tools/stat.py:107-121 | a solver value other than cbs is reported for a group exactly when the group is not skipped, the value is present (not NaN), some row of the group names it, and one of its costs is strictly below the cheapest cbs cost |
| Stat.MissingSolverNeverReported | tools/stat.py:110-116 | a row without a solver cell is never reported as a discrepancy, whatever its cost: its selection is empty and the loop moves on |
| Stat.GroupInconsistentSpec | tools/stat.py:98-105 | the intended consistency warning is emitted for a group exactly when it is not skipped and some successful cbs cost differs from the first |
| Stat.DiscrepancyWarningsSpec | tools/stat.py:109-121 | the solver loop reports a solver value exactly when it is listed, is not cbs, is not missing and has a cost below the cbs minimum, and reports nothing else |
| Stat.SolversOfGroup | tools/stat.py:110 | the solvers the loop visits are exactly those with a row in the group |
| Stat.CheckGroup | tools/stat.py:90-121 | the loop body emits exactly the group's intended warnings, none of them for a missing solver value |
| Stat.Discrepancies | tools/stat.py:109-121 | the inner loop skips cbs and any solver whose selection is empty, and emits the discrepancy warnings of the other listed solvers, in order |
| Stat.CheckSolverCosts | tools/stat.py:80-121 | with the consistency check as its comment intends, the warnings are those of every group, group by group in the order the keys first appear; nothing is raised |
| Stat.CheckSolverCostsAsWritten | tools/stat.py:99-105 | as written, the function raises `KeyError('costs')` exactly when some group is not skipped; when it does not raise, it returns what the intended check returns, which is nothing |
| Stat.AsWrittenRaises | tools/stat.py:99-102 | a table with a single successful cbs run already raises |
| Experiment.Choices | tools/experiment.py:86-95 | one value list per key, in key order |
| Experiment.ChoicesSpec | tools/experiment.py:89-95 | the value lists are built key by key: `seed_num` n gives 0..n−1, a list is used as is, a scalar becomes a one-element list; a non-numeric `seed_num` raises |
| Experiment.SeedRange | tools/experiment.py:90-91 | `seed_num` n expands to exactly the seeds 0..n−1 |
| Experiment.ProductSize | tools/experiment.py:97 | `itertools.product` yields as many tuples as the product of the list sizes |
| Experiment.ProductMember | tools/experiment.py:97 | a tuple is in the product exactly when its i-th element comes from the i-th list |
| Experiment.GenerateCombinations | tools/experiment.py:86-98 | the loop builds the value lists and yields one dictionary per element of their product, as `CombinationsOf` defines |
| Experiment.CombinationsCount | tools/experiment.py:86-98 | the number of combinations is the product of the value lists' sizes |
| Experiment.CombinationsMember | tools/experiment.py:89-98 | a dictionary is yielded exactly when it has the input keys, in order, and gives each key one of its values (a seed below `seed_num`, a list element, or the fixed scalar) |
| Experiment.Cells | tools/experiment.py:129-154 | the cells of the listed keys, each as `str`; the first missing key raises `KeyError` |
| Experiment.Sqrt | tools/experiment.py:187 | `math.sqrt` takes a non-negative number (a boolean counts as one); a negative number raises `ValueError` and a string or list `TypeError` |
| Experiment.BoundArgs | tools/experiment.py:181-191 | without `sub_optimal`, the bound arguments raise `KeyError` exactly for the solvers that take a bound; with it, they raise only for bcbs, and exactly when `math.sqrt` rejects the bound; a solver that takes no bound gets no argument |
| Experiment.BoundArgsMatchConfig | tools/experiment.py:181-191 | the command gives the low-level flag to the low-level-only solvers, the high-level flag to hbcbs, both flags with √s to bcbs and neither to cbs, matching the bounds `Config::validate` requires; a bcbs bound that `math.sqrt` rejects raises its error |
| Experiment.Switch | tools/experiment.py:194-199 | a switch is added exactly when its option is present and true |
| Experiment.OpArgsSpec | tools/experiment.py:194-199 | each option switch appears in the command exactly when its option is true |
| Experiment.BaseCommand | tools/experiment.py:171-178 | the base command has fourteen words and ends with the solver |
| Experiment.OutcomeRow | tools/experiment.py:203-212 | a timeout writes a "timeout" row, a non-zero exit a "solvefailure" row, and success or any other failure writes nothing |
| Experiment.RunWith | tools/experiment.py:160-212 | `time_out` is read first; the command is the base command, then the bound arguments, then the option switches; the row written is the one the process outcome calls for; apart from `KeyError` and an unbound `subopt_values`, only `math.sqrt` on a bcbs bound raises |
| Experiment.SubOptCells | tools/experiment.py:138-147 | the suboptimality pair has two cells; it is left unbound exactly for a solver other than cbs that takes no bound; with `sub_optimal` present, the only other error is `math.sqrt`'s on a bcbs bound |
| Experiment.ErrorRow | tools/experiment.py:119-158 | the row has twelve cells, with "[]" fourth and the error marker last; an unbound `subopt_values` raises only once all three option flags have been read, because `op_flags` is built before the parts are joined |
| Experiment.SubOptCellsMatchConfig | tools/experiment.py:138-147 | the pair is (NaN, NaN) for cbs, (NaN, s) for the low-level-only solvers, (s, NaN) for hbcbs and (√s, √s) for bcbs: the bounds each solver takes |
| Experiment.ErrorRowMatchesConfig | tools/experiment.py:129-158 | with acbs among the low-level-only solvers, a failed run's row holds the solver in its sixth cell and that solver's bounds in the seventh and eighth, unless `math.sqrt` rejects a bcbs bound, which raises its error |
| Experiment.AcbsErrorRowRaises | tools/experiment.py:138-158 | as written, a failed acbs run whose parameters hold every cell's key raises `UnboundLocalError` instead of writing its row; the corrected list writes it |
| Experiment.AcbsMissingFlagRaisesKeyError | tools/experiment.py:149-156 | as written, a failed acbs run that lacks `op_target_reasoning` raises `KeyError` for it before the unbound `subopt_values` is reached |
| Experiment.AcbsCommandLacksBound | tools/experiment.py:182-191 | as written, an acbs command gets no bound argument, although `Config::validate` requires a low-level bound of acbs |
| Experiment.CellsFirstMissing | tools/experiment.py:129-136 | the `KeyError` names the first listed key the parameters lack |
| Calculation.FirstTime | tools/calculation.py:51-60 | `groupby(...).first()` takes the first numeric time among the setting's runs of that solver, and is absent exactly when none of them has one |
| Calculation.Settings | tools/calculation.py:54-63 | the pivot's index lists each experiment setting of the table exactly once |
| Calculation.Pivot | tools/calculation.py:60-73 | one pivot row per distinct setting |
| Calculation.Flagged | tools/calculation.py:72-73 | a solver is timed out exactly when its time is at least the threshold |
| Calculation.MissingSolverTimesOut | tools/calculation.py:60-73 | a solver with no time for a setting is charged the threshold, so it counts as a timeout |
| Calculation.CaseRows | tools/calculation.py:76-83 | a case keeps only rows with its flag combination (none; BC only; BC and TR) |
| Calculation.Cases | tools/calculation.py:76-106 | exactly the three op-flag cases are tallied, in order |
| Calculation.Unique | tools/calculation.py:111-114 | `unique()` lists each value of the column once |
| Calculation.Dims | tools/calculation.py:111-114 | the four value lists (maps, scenarios, agent counts, low-level bounds) each hold their column's values once |
| Calculation.ProductMember | tools/calculation.py:123-126 | the nested loops visit a configuration exactly when each of its values is in its list |
| Calculation.ProductDistinct | tools/calculation.py:123-126 | no configuration is visited twice |
| Calculation.RowTally | tools/calculation.py:156-172 | each run falls in exactly one timeout class, and, when neither solver timed out, in exactly one comparison class |
| Calculation.Counts | tools/calculation.py:145-172 | over a configuration's runs, only-ECBS, only-DECBS, both and neither timeouts sum to `actual_count`, and decbs-faster, ecbs-faster and equal sum to `both_no_to` |
| Calculation.ConfigTally | tools/calculation.py:139-178 | a configuration with records adds 200 to the expected total, its run count to the found total, and `max(0, 200 − actual_count)` missing runs |
| Calculation.Step | tools/calculation.py:136-139 | a configuration adds its tally only when it has records, so an empty combination contributes nothing |
| Calculation.TallyOverBalanced | tools/calculation.py:123-178 | the running totals over the nested loops keep the counters' relations |
| Calculation.CaseTallyBalanced | tools/calculation.py:105-178 | a case's tally keeps the counters' relations and finds each of its rows once |
| Calculation.CaseTallyCountsRows | tools/calculation.py:111-146 | every row of a case is counted in exactly one configuration of the nested loops |
| Calculation.FoundOverCovers | tools/calculation.py:123-146 | configurations listed once each that cover every row's configuration find every row exactly once |
| Calculation.SumCasesBalanced | tools/calculation.py:105-178 | the totals over the cases keep the counters' relations and find exactly the cases' rows |
| Calculation.TallyConfig | tools/calculation.py:127-178 | the innermost loop body adds the configuration's tally |
| Calculation.TallyConfigs | tools/calculation.py:123-178 | the nested loops compute the sum of the configurations' tallies |
| Calculation.TallyCase | tools/calculation.py:106-178 | one case's loop body computes its tally, and skips a case with no rows |
| Calculation.TallyCases | tools/calculation.py:105-178 | the loop over the three cases computes the sum of their tallies |
| Calculation.AnalyzeTimeoutsTotal | tools/calculation.py:6-215 | `None` when nothing was loaded; a `KeyError` when the pivot lacks the decbs or ecbs column; otherwise the totals over the three cases |
| Calculation.SummaryBalanced | tools/calculation.py:141-197 | in the summary the four timeout classes sum to the runs found, which are the three cases' rows; the comparisons sum to both-no-timeout; adjusted both = both + missing and adjusted total = total + missing; the expected total is a multiple of 200 |
| Scenario.ParseHeader | src/scenario.rs:57-62 | the header parses exactly when fields 2 and 3 are `usize` numerals, and the map name is field 1 |
| Scenario.ParseEntry | src/scenario.rs:47-55 | a data line parses exactly when fields 0, 5, 4, 7 and 6 are `usize` numerals; the first one missing or malformed is the panic |
| Scenario.ParseLine | src/scenario.rs:46-62 | every header read from a line carries the non-empty map name the line's second word gives |
| Scenario.ParseFormatLine | src/scenario.rs:46-62 | reading back a well-formed nine-field data line gives its bucket and header, with x and y exchanged: the route starts at `(y1, x1)` and ends at `(y2, x2)` |
| Scenario.GroupContents | src/scenario.rs:64-71 | a bucket exists exactly when some line names it, and holds that bucket's routes in file order |
| Scenario.LoadStepsOk | src/scenario.rs:46-72 | loading succeeds exactly when no line fails; the result then has the first data line's header and every route grouped by bucket in file order |
| Scenario.LoadStepsErr | src/scenario.rs:46-72 | a failed load reports the panic of the first failing line |
| Scenario.LoadStepsStops | src/scenario.rs:46-72 | a panic on a prefix of the lines is the panic of the whole file |
| Scenario.LoadFromScen | src/scenario.rs:30-75 | the loop over the lines (after skipping the version line) computes `Load` |
| Scenario.ReadLine | src/scenario.rs:47-71 | one iteration is one `LoadStep`: parse, header while the map name is empty, push |
| Scenario.Unused | src/scenario.rs:99-105 | the available indices are exactly those below the bucket size that are not used |
| Scenario.UnusedEmpty | src/scenario.rs:107-112 | with used indices all below the bucket size `n`, none is available exactly when `n` are used |
| Scenario.AssignStepsInv | src/scenario.rs:90-131 | after the loop each agent holds a valid index of its bucket, no index of a bucket goes to two agents, and each bucket's used set has as many indices as agents asked for it |
| Scenario.AssignStepsOk | src/scenario.rs:90-131 | the assignment succeeds exactly when every agent's bucket exists and holds at least as many routes as agents asked for it so far, whatever the random choices |
| Scenario.AssignStepsErr | src/scenario.rs:96-112 | a failed assignment names the bucket of the first agent that does not fit (not found, or no routes left) |
| Scenario.AssignStepsStops | src/scenario.rs:96-112 | an agent that cannot be served ends the whole assignment with its error |
| Scenario.Chosen | src/scenario.rs:119 | agent `i`'s route is `bucket[picks[i]]` of its bucket, with the index in range |
| Scenario.AgentsOf | src/scenario.rs:120-124 | agent `i` has id `i`, start `(start_x, start_y)` and goal `(goal_x, goal_y)` of route `i` |
| Scenario.GenerateAgentsByBuckets | src/scenario.rs:77-135 | the method computes `ByBuckets`: length check, `unwrap` of the buckets, then the assignment loop |
| Scenario.PickRoute | src/scenario.rs:91-117 | a missing bucket or an exhausted one is the loop's error; otherwise the chosen index is in the bucket and is the one the step marks used |
| Scenario.ByBucketsSucceeds | src/scenario.rs:83-131 | `generate_agents_by_buckets` succeeds exactly when the lengths agree and, unless no agent is asked for, every agent fits in its bucket |
| Scenario.ByBucketsSound | src/scenario.rs:87-134 | on success there is one agent per bucket entry, agent `i` has id `i` and the route at some index of bucket `bs[i]`, and no index of a bucket goes to two agents |
| Scenario.FlattenFrom | src/scenario.rs:145-152 | every flattened route belongs to some bucket |
| Scenario.Popped | src/scenario.rs:164-167 | the `n` routes popped are the last `n` list positions, last first |
| Scenario.PoppedTail | src/scenario.rs:164-177 | popping `n` times takes exactly the multiset of the last `n` positions, so no route more often than it is listed |
| Scenario.GenerateAgentsRandomly | src/scenario.rs:137-182 | absent buckets panic; fewer routes than agents is the "Not enough unique routes" error; otherwise the agents are built from the last `num_agents` routes of the shuffled list |
| Scenario.RandomlyFromBuckets | src/scenario.rs:145-177 | each randomly assigned agent's route belongs to a bucket, and no route is handed out more often than the buckets hold it |
| Yaml.SameIsEquivalence | src/yaml.rs:21-30 | route equality (the four coordinates agree) is reflexive, symmetric and transitive, as `impl Eq` promises |
| Yaml.SameIffSameHash | src/yaml.rs:21-39 | two routes are equal exactly when they feed the hasher the same four coordinates, so equal routes hash alike |
| Yaml.SameIgnoresLength | src/yaml.rs:21-39 | routes that differ only in their optimal length are equal and hash alike |
| Yaml.ParseEntry | src/yaml.rs:69-78 | a data line parses exactly when fields 0, 5, 4, 7 and 6 are `usize` numerals and field 8 is an `f64` (a decimal, scientific notation, an infinity or NaN); the first bad field is the panic |
| Yaml.ParseLine | src/yaml.rs:69-85 | every header read from a line carries the non-empty map name the line's second word gives |
| Yaml.ParseFormatLine | src/yaml.rs:69-85 | reading back a well-formed data line exchanges x and y as the `.scen` loader does and keeps the optimal length the last field gives |
| Yaml.LoadFromFile | src/yaml.rs:52-95 | the loop over the lines (after skipping the version line) computes `Load`, the same fold as the `.scen` loader with the bucket map always present |
| Yaml.ReadLine | src/yaml.rs:69-92 | one iteration is one load step: parse, header while the map name is empty, push |
| Yaml.AgentsOf | src/yaml.rs:139-143 | agent `i` has id `i`, start `(start_x, start_y)` and goal `(goal_x, goal_y)` of route `i` |
| Yaml.ByBucketsSucceeds | src/yaml.rs:98-154 | `generate_agents_by_buckets` succeeds exactly when the lengths agree and every agent fits in its bucket |
| Yaml.ByBucketsSound | src/yaml.rs:98-154 | on success agent `i` has id `i` and an index of bucket `bs[i]` that no other agent of that bucket has |
| Yaml.GenerateAgentsByBuckets | src/yaml.rs:98-154 | the method computes `ByBuckets` with the random choices given as draws |
| Yaml.GenerateAgentsRandomly | src/yaml.rs:156-195 | fewer routes than agents is the "Not enough unique routes" error; otherwise the agents are built from the last `num_agents` routes of the shuffled list |
| Parse.WordLen | src/scenario.rs:47 | the leading word is a run of non-whitespace characters ended by whitespace or the end of the line |
| Parse.SplitWhitespace | src/scenario.rs:47 | `split_whitespace` yields only non-empty runs of non-whitespace |
| Parse.SplitJoined | src/scenario.rs:47 | splitting tokens written out with single spaces gives the tokens back |
| Parse.ParseUsize | src/scenario.rs:48-54 | a parsed `usize` is at most `usize::MAX` |
| Parse.NatToStringValue | src/scenario.rs:48-54 | the decimal text of `n` denotes `n` |
| Parse.ParseUsizeOfString | src/scenario.rs:48-54 | parsing the decimal text of any `usize` gives it back |
| Parse.ParseF64 | src/yaml.rs:77 | a parsed `f64` comes from non-empty text that is more than a sign; an infinity is negative exactly when the text starts with `-`, and a negative finite value only comes from such text |
| Parse.ParseF64Scientific | src/yaml.rs:77 | digits, `e` or `E`, an optional sign and digits parse as the mantissa times (or, after `-`, divided by) ten to the exponent |
| Parse.ParseF64Words | src/yaml.rs:77 | `inf` and `infinity` in any case, signed or not, are infinities with the text's sign; `nan` in any case is NaN |
| Parse.ParseF64Rejects | src/yaml.rs:77 | the empty text, a sign alone, a dot alone, an exponent without digits and an exponent without a mantissa do not parse |
| Parse.ParseF64OfDigits | src/yaml.rs:77 | a digit string reads as the same number whether parsed as `usize` or as `f64` |
| Parse.UsizeAt | src/scenario.rs:48-54 | `parts[i].parse().unwrap()` succeeds exactly when field `i` exists and is a `usize` numeral; otherwise it panics with an index error when the field is missing and an unwrap error when it is malformed |
| Parse.RealAt | src/yaml.rs:77 | `parts[i].parse::<f64>().unwrap()` succeeds exactly when field `i` exists and parses as an `f64` (with every form `ParseF64` accepts), with an index panic for a missing field and an unwrap panic for a malformed one |
| GridMap.ParseTile | src/map.rs:57-60 | a tile is passable exactly when its character is `.`, and starts with no neighbours |
| GridMap.ParseGrid | src/map.rs:53-64 | the grid has the first `height` lines (fewer if the file is shorter), one tile per character |
| GridMap.NeighborsIff | src/map.rs:90-108 | a cell is listed exactly when it is in the rectangle, passable, and at most one move away, so a passable cell lists itself |
| GridMap.NeighborsDistinct | src/map.rs:90-108 | no cell is listed twice |
| GridMap.NeighborsEndWithStay | src/map.rs:91 | a passable cell in the rectangle ends its own list with itself (the stay move is tried last) |
| GridMap.NeighborsSymmetric | src/map.rs:90-108 | two passable cells list each other or neither does |
| GridMap.Map.constructor | src/map.rs:66-71 | the map starts with the given size and grid and no distance tables |
| GridMap.Map.GetNeighbors | src/map.rs:90-108 | the loop over up, down, left, right and stay yields the passable in-bounds candidates in that order |
| GridMap.Map.IsPassable | src/map.rs:110-112 | the answer is the passability of the tile at `(x, y)` |
| GridMap.Map.InitializeNeighbors | src/map.rs:80-88 | every passable tile of the rectangle gets the neighbour list computed on the grid as it stands at that point; impassable tiles keep theirs |
| GridMap.InitializedValid | src/map.rs:80-88 | after linking a freshly parsed grid every neighbour list stays in the rectangle |
| GridMap.Map.HeuristicDji | src/map.rs:114-137 | a goal outside the rectangle is an index panic; otherwise the table is the goal's distance table: 0 at the goal and only there, every finite entry the length of a walk from the goal over the neighbour lists, no walk shorter than its cell's entry, `usize::MAX` where nothing is reached |
| GridMap.PopIndex | src/map.rs:121 | `BinaryHeap::pop` of `(Reverse(cost), cell)` takes an entry of least cost, the greatest cell among equal costs |
| GridMap.Relax | src/map.rs:121-134 | one pop and its neighbour loop keep the search invariant, never raise an entry, and either change nothing or strictly shrink the set of pending (cell, value) pairs, which bounds the loop |
| GridMap.RelaxNeighbor | src/map.rs:125-131 | the neighbour drops to `cost + 1` and is queued exactly when that is lower than its entry |
| GridMap.DistanceZeroOnlyAtGoal | src/map.rs:118 | in a distance table only the goal is at distance 0 |
| GridMap.DistanceStep | src/map.rs:125-131 | in a distance table a listed neighbour is at most one further from the goal |
| GridMap.StartSearching | src/map.rs:115-119 | the table of `usize::MAX` with the goal at 0 and the goal queued satisfies the search invariant |
| GridMap.SearchDone | src/map.rs:121 | once the queue is empty the table is a distance table |
| GridMap.FromFile | src/map.rs:29-78 | a missing tile in the rectangle or a goal outside it is an index panic; otherwise the map has the given size, its grid is the parsed grid with neighbours linked, and it holds the distance table of each agent's goal in agent order |
| AStar.CmpReversed | src/astar.rs:13-18 | a node ranks above another exactly when its f cost is lower, or equal with a lower g cost; ranks are equal exactly when both costs agree; the order is antisymmetric |
| AStar.HeuristicSymmetric | src/astar.rs:60-63 | the Manhattan distance is symmetric |
| AStar.HeuristicZeroIff | src/astar.rs:60-63 | the distance is 0 exactly at the goal |
| AStar.HeuristicTriangle | src/astar.rs:60-63 | the distance obeys the triangle inequality |
| AStar.ConstructPath | src/astar.rs:65-73 | the path is the chain of `came_from` entries followed back from `current`, reversed so it runs start first |
| AStar.PopIndex | src/astar.rs:37 | `BinaryHeap::pop` takes a node no other node ranks above |
| AStar.AStarSearch | src/astar.rs:26-58 | a returned path is a walk from `start` to `goal` over the neighbour lists of passable tiles; no path is reported only when no walk from `start` of at most `usize::MAX` cells reaches `goal`; a start equal to the goal gives the one-cell path; a tile lookup out of range panics |
| AStar.Expand | src/astar.rs:42-54 | the neighbour loop panics exactly when a lookup is out of range; otherwise it keeps the search invariant, never raises a cost, keeps the trace of unchanged cells, and either changes nothing or strictly shrinks the pending (cell, cost) pairs, which bounds the search |
| AStar.Visit | src/astar.rs:43-53 | the result is `Visited`: an impassable neighbour is skipped; a passable one is recorded at one above the current cost, traced to the current cell and opened exactly when that is lower than its recorded cost |
| AStar.VisitKeeps | src/astar.rs:43-53 | one pass of the neighbour loop keeps the search invariant, the relaxed prefix of neighbours, and the costs-only-drop relation to the search before the loop |
| AStar.ChainIsWalk | src/astar.rs:65-73 | following the trace back from a recorded cell gives a walk from the start to that cell |
| AStar.WalkBound | src/astar.rs:37-55 | once every recorded cell is relaxed, a walk from the start of `k` moves ends at a cell recorded at cost at most `k` |
| AStar.NoWalkToGoal | src/astar.rs:57 | with the open set empty and the goal never popped, no walk from the start reaches the goal |
| Algorithm.Hits | src/algorithm.rs:31-51 | each other agent contributes at most two conflicts, the agent's own path none |
| Algorithm.HeuristicFocal | src/algorithm.rs:19-54 | a zero time step fails the `assert_ne!`; an empty other path fails the `unwrap`; otherwise the result is the number of vertex conflicts (the other agent at `position`, parked at its last cell once its path ended) plus edge conflicts (the other agent, still moving, swapping cells with this one) |
| Algorithm.ConflictCountBounded | src/algorithm.rs:31-51 | the count is at most twice the number of other agents |
| Algorithm.ConflictCountZeroIff | src/algorithm.rs:31-53 | the heuristic is zero exactly when no other agent meets the move at the vertex or on the edge |
| Algorithm.ChainFollowsTrace | src/algorithm.rs:56-64 | the chain walked back from `current` starts at a state with no trace entry, and each state's trace entry is the state just before it |
| Algorithm.ConstructPath | src/algorithm.rs:56-64 | the path is the cells of the chain of trace entries from `current` back to an untraced state, listed start first |
| Algorithm.ConstructPathUntraced | src/algorithm.rs:57-58 | without a trace entry for `current` the path is that single cell |
| SolverAlgorithm.VertexHits | src/solver/algorithm.rs:19-30 | an agent counts 1 exactly when it is another agent occupying `position` at `time` (parked at its last cell once its path ended) |
| SolverAlgorithm.HeuristicFocal | src/solver/algorithm.rs:11-33 | an empty other path fails the `unwrap`; otherwise the result is the number of other agents at `position` at `time` |
| SolverAlgorithm.VertexCountBounded | src/solver/algorithm.rs:19-30 | the count is at most the number of other agents |
| SolverAlgorithm.VertexCountZeroIff | src/solver/algorithm.rs:19-32 | the heuristic is zero exactly when no other agent occupies the cell at that time |
| SolverAlgorithm.VertexCountAtMostFull | src/solver/algorithm.rs:11-33 | the vertex-only count never exceeds the later vertex-and-edge count of src/algorithm.rs for the same move |
| Common.PaddedAt | src/algorithm.rs:36 | the cell read at a step is on the path, and is the last cell once the path has ended |
| Common.SumOfCostsNonNegative | src/common/highlevel.rs:149 | paths that hold at least their start cell have a non-negative total cost |
| Common.SumOfCostsUpdate | src/common/highlevel.rs:452 | replacing one path changes the total cost by the difference of the two path costs |
| Common.InsertAt | src/common/highlevel.rs:150 | `Vec::insert` puts the element at position `i` and moves the later ones up by one |
| Common.SumOfCostsInsert | src/common/highlevel.rs:149-150 | inserting a path adds its cost to the total |
| Ordering.CmpKeyEqual | src/common/highlevel.rs:516-520 | two keys compare Equal exactly when they are the same value, as the derived `Ord` on tuples, vectors and integers promises |
| Ordering.CmpKeyAntisym | src/common/highlevel.rs:516-520 | swapping the operands reverses the comparison |
| Ordering.CmpKeyTrans | src/common/highlevel.rs:516-520 | the comparison is transitive, strictly when either step is strict |
| Ordering.MinKey | src/common/highlevel.rs:516-520 | every non-empty set of keys has a least element |
| Ordering.MinKeyUnique | src/common/highlevel.rs:516-520 | that least element is unique |
| Ordering.Least | src/common/highlevel.rs:516-520 | `BTreeSet::first` finds a key no other key precedes |
| Ordering.Insert | src/common/highlevel.rs:516-520 | `BTreeSet::insert` adds the key and keeps the element of a key already present |
| AlgorithmAStar.ConstraintLimit | src/algorithm/astar.rs:17-24 | the limit is at least every constraint's time step (the vertex time step, or an edge's arrival time step), is one of them, and is 0 without constraints |
| AlgorithmAStar.PlanOfReached | src/algorithm/astar.rs:139-143 | the path rebuilt from the trace for a reached state has one cell per time step, starts at the agent's start, ends at that cell, and every step is an offered move that breaks no constraint |
| AlgorithmAStar.NextTimeAt | src/algorithm/astar.rs:103-107 | the time step advances with the cost until it passes the constraint limit, then stays, so a node's time step is a function of its cost |
| AlgorithmAStar.FoundDelivers | src/algorithm/astar.rs:88-93 | a popped node at the goal with a cost above the path-length constraint yields a plan to the goal of more moves than that constraint, whose f value is its moves plus the goal's heuristic |
| AlgorithmAStar.StartNode | src/algorithm/astar.rs:76-78 | the start node is at the agent's start with cost 0, time step 0 and no focal cost |
| AlgorithmAStar.OpenExpandKeeps | src/algorithm/astar.rs:95-146 | closing the popped state and visiting its neighbours keeps the search invariant: every waiting node was reached by a legal plan and its f value is g plus the heuristic |
| AlgorithmAStar.OpenRunCounts | src/algorithm/astar.rs:80-149 | the open-cost search never panics, and pops at most `fuel` nodes (exactly `fuel` when it runs out) |
| AlgorithmAStar.OpenRunDelivers | src/algorithm/astar.rs:80-149 | what the open-cost search returns is a plan to the goal |
| AlgorithmAStar.OpenLoopExit | src/algorithm/astar.rs:80 | the loop ends with `None` when the list is empty |
| AlgorithmAStar.StandardAStarSearchOpenCost | src/algorithm/astar.rs:61-150 | the method computes the open-cost run from the start node |
| AlgorithmAStar.OpenSearchFrom | src/algorithm/astar.rs:80-149 | the search loop computes the run from the given list and closed set |
| AlgorithmAStar.OpenStep | src/algorithm/astar.rs:80-147 | one iteration pops the least node, returns its path when it is the goal, and otherwise expands it |
| AlgorithmAStar.ExpandOpen | src/algorithm/astar.rs:110-145 | the neighbour loop skips closed states and constrained moves, inserts the new node, and traces it only when the insert added it |
| AlgorithmAStar.FocalIncrement | src/algorithm/astar.rs:231-237 | the focal increment can fail only by `heuristic_focal`'s `unwrap` on an empty other path |
| AlgorithmAStar.FocalCostExpandKeeps | src/algorithm/astar.rs:190-256 | expanding a node keeps the search invariant and keeps every waiting node within the cost bound |
| AlgorithmAStar.FocalCostRunSound | src/algorithm/astar.rs:175-259 | the focal-cost search's only panic is `heuristic_focal`'s; what it returns is a plan to the goal whose f value is within `opt_cost` unless the start is already the goal |
| AlgorithmAStar.FocalCostLoopExit | src/algorithm/astar.rs:175 | the loop ends with `None` when the list is empty |
| AlgorithmAStar.StandardAStarSearchFocalCost | src/algorithm/astar.rs:154-260 | the method computes the focal-cost run from the start node |
| AlgorithmAStar.FocalCostSearchFrom | src/algorithm/astar.rs:175-258 | the search loop computes the run from the given list and closed set |
| AlgorithmAStar.FocalCostStep | src/algorithm/astar.rs:175-257 | one iteration pops the least node, returns its path when it is the goal, and otherwise expands it |
| AlgorithmAStar.FocalCostVisitsStop | src/algorithm/astar.rs:205-255 | once `heuristic_focal` panics on a neighbour, the remaining neighbours are not visited |
| AlgorithmAStar.ExpandFocalCost | src/algorithm/astar.rs:205-255 | the neighbour loop skips nodes over the bound, closed states and constrained moves, and adds the focal heuristic to the focal cost |
| AlgorithmAStar.SearchEnv | src/algorithm/astar.rs:17-24 | the search runs with the constraints' latest time step as its limit |
| AlgorithmAStar.AStarSearch | src/algorithm/astar.rs:9-59 | `a_star_search` runs the open-cost search and wraps its result as `build_mdd` asks |
| AlgorithmAStar.AStarSearchSound | src/algorithm/astar.rs:26-58 | the result is `Standard` exactly when no MDD is asked for; a found path is a plan to the goal; an MDD comes with a path of exactly `f_min` moves and is built for `f_min`; a panic is the `assert_eq!`, which can fail only when the goal's heuristic is not 0 |
| AlgorithmAStarFocal.ScaleIsProduct | src/algorithm/astarfocal.rs:218 | the bound `f_min as f64 * subopt_factor` is computed as a sum of `f_min` copies of the factor, which equals the product |
| AlgorithmAStarFocal.OpenKeyOfInjective | src/algorithm/astarfocal.rs:116-118 | two nodes share an open-list entry exactly when they agree on position, g and f_open |
| AlgorithmAStarFocal.FocalKeyOfInjective | src/algorithm/astarfocal.rs:119-120 | two nodes share a focal-list entry exactly when they agree on everything but the time step |
| AlgorithmAStarFocal.DecreaseKey | src/algorithm/astarfocal.rs:222-243 | corrected decrease-key: a lower focal cost is recorded, and the node's focal entry under the prior cost, if present, is replaced by one for the same open node; open list, trace, `f_min` and closed set are untouched |
| AlgorithmAStarFocal.DecreaseKeyAsWritten | src/algorithm/astarfocal.rs:228-241 | as written: the entry re-inserted has the prior focal cost as its f_open and enters focal whether or not the node was there |
| AlgorithmAStarFocal.RaisedFMin | src/algorithm/astarfocal.rs:146 | `f_min` never decreases, and becomes the open list's least f_open when that is larger |
| AlgorithmAStarFocal.FocalRunCounts | src/algorithm/astarfocal.rs:135-261 | the search pops at most `fuel` nodes, and exactly `fuel` when it runs out |
| AlgorithmAStarFocal.StartSafe | src/algorithm/astarfocal.rs:126-133 | with a factor of at least 1 the start state keeps the loop invariant: focal holds distinct open nodes within `f_min * w`, each reached and with its focal cost recorded |
| AlgorithmAStarFocal.VisitOutcome | src/algorithm/astarfocal.rs:177-243 | a neighbour is skipped when its state is closed or the move is constrained, fails only in `heuristic_focal`, and is otherwise entered |
| AlgorithmAStarFocal.VisitLinked | src/algorithm/astarfocal.rs:208-243 | with the corrected decrease-key (Findings row 1), a visit keeps the focal list linked to the open list and within `f_min * w`, and leaves `f_min` alone |
| AlgorithmAStarFocal.VisitPanics | src/algorithm/astarfocal.rs:191-198 | a visit panics only in `heuristic_focal`, when another agent's path is empty |
| AlgorithmAStarFocal.DiscoverRecorded | src/algorithm/astarfocal.rs:224-227 | a node already in the open list always has its focal cost recorded, so the `unwrap` never fails |
| AlgorithmAStarFocal.PopKeeps | src/algorithm/astarfocal.rs:144-149 | popping keeps the invariant; in a state that keeps it, which the corrected decrease-key maintains, the popped node is in the open list, so the `assert!` on its removal holds |
| AlgorithmAStarFocal.BandKeeps | src/algorithm/astarfocal.rs:246-260 | maintaining the band after a rise of the open minimum restores the invariant with the new `f_min` as bound |
| AlgorithmAStarFocal.FocalRunSound | src/algorithm/astarfocal.rs:135-264 | from a state keeping the invariant, the corrected run's only panic is `heuristic_focal`'s on an empty other path, and what it returns is a plan to the goal whose f value is within `f_min * w` |
| AlgorithmAStarFocal.FocalLoopExit | src/algorithm/astarfocal.rs:135 | the loop ends with `None` when the focal list is empty |
| AlgorithmAStarFocal.StandardFocalAStarSearch | src/algorithm/astarfocal.rs:102-265 | the method computes the focal run, with the corrected decrease-key, from the start state |
| AlgorithmAStarFocal.FocalSearchFrom | src/algorithm/astarfocal.rs:135-261 | the search loop computes the run, with the corrected decrease-key, from the given state |
| AlgorithmAStarFocal.FocalStep | src/algorithm/astarfocal.rs:135-260 | one iteration: pop the least focal node, close it, raise `f_min`, remove it from open, return at the goal, else expand with the corrected decrease-key and maintain the band |
| AlgorithmAStarFocal.FocalVisitsStop | src/algorithm/astarfocal.rs:172-244 | once a neighbour panics the remaining neighbours are not visited |
| AlgorithmAStarFocal.ExpandFocal | src/algorithm/astarfocal.rs:172-244 | the neighbour loop visits the offered neighbours in order, each through `VisitNeighbor` |
| AlgorithmAStarFocal.VisitNeighbor | src/algorithm/astarfocal.rs:177-243 | one neighbour: skip, fail, admit a new node (into focal when within the bound) or decrease its key with the corrected `DecreaseKey` |
| AlgorithmAStarFocal.MaintainBand | src/algorithm/astarfocal.rs:246-260 | the nodes with f_open above the old `f_min * w` and at most the new one enter focal |
| AlgorithmAStarFocal.StandardFocalDoubleSearch | src/algorithm/astarfocal.rs:269-303 | the double search runs the open-cost search and, when it finds a path, the corrected focal-cost search bounded by its `f_min * w` |
| AlgorithmAStarFocal.DoubleRunSound | src/algorithm/astarfocal.rs:269-303 | with the corrected decrease-key, the double search returns a path only when the open-cost search found one, and then a plan to the goal within that `f_min * w` (unless it is the start alone); its only panic is `heuristic_focal`'s; it expands at most twice `fuel` nodes |
| AlgorithmAStarFocal.WithFocalMdd | src/algorithm/astarfocal.rs:37-97 | without `build_mdd` a path is returned as `Standard`; an MDD is built only for a path of exactly `f_min` moves; a panic is the search's own or the bound `assert!` |
| AlgorithmAStarFocal.FocalAStarSearch | src/algorithm/astarfocal.rs:17-98 | `focal_a_star_search` runs the corrected double or single search as asked and wraps its result |
| AlgorithmAStarFocal.WithFocalMddSound | src/algorithm/astarfocal.rs:79-97 | for a sound search outcome the wrapping keeps the plan, builds an MDD only for a path of exactly `f_min` moves, and adds no panic |
| AlgorithmAStarFocal.FocalAStarSearchSound | src/algorithm/astarfocal.rs:17-98 | with the corrected decrease-key and a factor of at least 1, a found path is a plan to the goal, an MDD comes with a path of exactly `f_min` moves and is built for `f_min`, and the only panic is `heuristic_focal`'s: the `assert!` and the subtraction never fail there, while the source's own decrease-key can fail the `assert!` (`DecreaseKeyAsWrittenPanics`) |
| AlgorithmAStarFocal.DecreaseKeyAsWrittenPanics | src/algorithm/astarfocal.rs:228-241 | a node in open but not in focal, rediscovered with a lower focal cost: as written the next pop fails the `assert!` on the removal from open; the corrected decrease-key only records the new cost |
| SolverAStar.MaxTime | src/solver/algorithm/astar.rs:17 | `max_time` is at least every constraint's time step, is one of them, and is 0 without constraints |
| SolverAStar.PlanOfReached | src/solver/algorithm/astar.rs:71 | the path rebuilt for a reached state has one cell per time step from the agent's start, and every step moves to a listed neighbour into an unconstrained (cell, time) |
| SolverAStar.NodeFor | src/solver/algorithm/astar.rs:74-81 | the node pushed for a neighbour has cost and time `g` and sort key `g` plus the neighbour's heuristic |
| SolverAStar.ImprovesOnlyWhenNew | src/solver/algorithm/astar.rs:70-72 | a neighbour improves exactly when its (cell, next time) is not closed, not constrained and never recorded before, because a recorded g cost always equals its time step: each state is traced and pushed at most once |
| SolverAStar.PopIndex | src/solver/algorithm/astar.rs:38 | `BinaryHeap::pop` takes a node no other node ranks above |
| SolverAStar.PoppedIsLowest | src/solver/algorithm/astar.rs:38 | the popped node has the lowest f of the heap |
| SolverAStar.Popped | src/solver/algorithm/astar.rs:38-41 | popping removes exactly that node from the heap and closes its (cell, time) |
| SolverAStar.PopKeeps | src/solver/algorithm/astar.rs:38-41 | popping keeps the search invariant, and the popped node was reached |
| SolverAStar.VisitNeighbor | src/solver/algorithm/astar.rs:58-82 | an improving neighbour is traced back to the current node, its g cost recorded and its node pushed; otherwise nothing changes; the invariant is kept |
| SolverAStar.Expand | src/solver/algorithm/astar.rs:57-83 | visiting the neighbours keeps the invariant and closes nothing |
| SolverAStar.StartSearch | src/solver/algorithm/astar.rs:19-36 | the start state keeps the invariant |
| SolverAStar.AStarSearch | src/solver/algorithm/astar.rs:11-87 | the search never panics and pops at most `fuel` nodes; a returned path starts at the start, moves along listed neighbours into unconstrained (cell, time) pairs, and ends at the goal after the last constrained time step; its second component is `None` |
| SolverAStar.DeliveredMoves | src/solver/algorithm/astar.rs:44 | a returned path has at least two cells, even when the agent starts on its goal |
| SolverAStar.GoalConstraintDelays | src/solver/algorithm/astar.rs:44 | a constraint on the goal at time `t` forces arrival after `t` |
| SolverAStarFocal.OpenKeyInjective | src/solver/algorithm/astarfocal.rs:27-28 | distinct open nodes have distinct order keys, so the open list holds each node once |
| SolverAStarFocal.FocalKeyInjective | src/solver/algorithm/astarfocal.rs:29 | distinct focal nodes have distinct order keys |
| SolverAStarFocal.StartTraced | src/solver/algorithm/astarfocal.rs:35-49 | the start node in both lists is reached and stored under its own key |
| SolverAStarFocal.PoppedLeavesOpen | src/solver/algorithm/astarfocal.rs:230-235 | the corrected removal takes the popped node out of open and keeps every other node |
| SolverAStarFocal.StaleNodeStaysOpen | src/solver/algorithm/astarfocal.rs:59-66 | as written, whenever the popped node's f_open differs from `f_min`, its open entry survives the removal, so a closed node stays in open |
| SolverAStarFocal.StaleNodeExample | src/solver/algorithm/astarfocal.rs:59-66 | with the open minimum at 5 and a factor of 1.5, a popped node of f_open 6 is within the band and stays in open as written, but not after the corrected removal |
| SolverAStarFocal.VisitNeighbor | src/solver/algorithm/astarfocal.rs:80-154 | a closed or constrained neighbour changes nothing; the only panic is an `unwrap` on `None`; a new node is inserted, traced, its focal cost recorded, and it enters focal only within `f_min * w`; a focal entry that leaves is replaced by one for the same open node under a lower focal cost; recorded focal costs never rise |
| SolverAStarFocal.LowerFocalCost | src/solver/algorithm/astarfocal.rs:129-151 | a lower focal cost of a node already in open is recorded and its focal entry, when present, is replaced; open, trace and closed set are unchanged |
| SolverAStarFocal.ExpandFocal | src/solver/algorithm/astarfocal.rs:80-154 | the neighbour loop keeps every listed node reached and closes nothing; its only panic is an `unwrap` on `None` |
| SolverAStarFocal.MaintainBand | src/solver/algorithm/astarfocal.rs:156-175 | when the open minimum has risen above `f_min`, every open node with f_open in (f_min * w, new minimum * w] enters focal under its recorded focal cost; a missing record is an `unwrap` panic |
| SolverAStarFocal.SearchFrom | src/solver/algorithm/astarfocal.rs:51-180 | the shared loop, removing the popped node's own open entry as corrected in Findings row 2, pops at most `fuel` nodes; its only panic is an `unwrap` on `None`; a returned path ends at the goal after the last constraint, paired with an `f_min` no lower than the given one, and equal to it in the double search |
| SolverAStarFocal.FocalAStarSearch | src/solver/algorithm/astarfocal.rs:15-181 | with the corrected removal, a returned path is a plan that reaches the goal after the last constraint, paired with an `f_min` no lower than `last_search_f_min`; the only panic is an `unwrap` on `None` |
| SolverAStarFocal.FirstFMinAsWritten | src/solver/algorithm/astarfocal.rs:196 | as written, `unwrap` panics exactly when the plain A* finds nothing, and otherwise `f_min` is the second component of the A* result, an `Option<usize>` |
| SolverAStarFocal.FocalAStarDoubleSearchAsWritten | src/solver/algorithm/astarfocal.rs:184-196 | as written, the first statement panics only when the plain A* finds nothing; otherwise the `f_min` it binds is always `None`, which the rest of the function then uses as a `usize` |
| SolverAStarFocal.FirstFMin | src/solver/algorithm/astarfocal.rs:195-196 | the corrected `f_min` is the plain A* path's moves plus the goal's heuristic, and is missing exactly when the A* finds nothing |
| SolverAStarFocal.FocalAStarDoubleSearch | src/solver/algorithm/astarfocal.rs:184-350 | in the intended reading of line 196 and with the corrected removal, each search expands at most `fuel` nodes; the only panic is an `unwrap` on `None`; a returned path is a plan to the goal after the last constraint, paired with the cost of a plan the A* delivered |
| CommonHighLevel.ViolatedOnlyAtItsPosition | src/common/highlevel.rs:53-57 | a constraint is violated only at its own position |
| CommonHighLevel.TemporaryViolatedOnlyAtItsTime | src/common/highlevel.rs:53-63 | a temporary constraint is violated at its position exactly at its time step |
| CommonHighLevel.PermanentViolatedFromItsTimeOn | src/common/highlevel.rs:53-63 | a permanent constraint is violated at its position at its time step and at every later one, and never before |
| CommonHighLevel.ConflictKeyInjective | src/common/highlevel.rs:37-44 | the derived order of conflicts tells distinct conflicts apart |
| CommonHighLevel.ConflictsKeyInjective | src/common/highlevel.rs:78-87 | the order on conflict lists tells distinct lists apart |
| CommonHighLevel.PathsKeyInjective | src/common/highlevel.rs:78-87 | the order on path lists tells distinct path lists apart |
| CommonHighLevel.OpenOrderEqual | src/common/highlevel.rs:78-87 | two open nodes compare equal exactly when their cost, conflicts and paths agree |
| CommonHighLevel.OpenOrderCostFirst | src/common/highlevel.rs:78-81 | an open node of lower cost comes first |
| CommonHighLevel.FocalOrderFocalFirst | src/common/highlevel.rs:515-523 | a focal node with fewer conflicts comes first, and at equal focal value the lower cost does |
| CommonHighLevel.OpenFocalRoundTrip | src/common/highlevel.rs:487-500 | converting an open node to a focal node and back gives the same node |
| CommonHighLevel.FocalOpenRoundTrip | src/common/highlevel.rs:531-543 | converting a focal node to an open node and back gives it back exactly when its focal value is its conflict count |
| CommonHighLevel.FocalOrderOfOpenNodes | src/common/highlevel.rs:487-523 | focal nodes made from open nodes with as many conflicts are ordered as the open nodes are |
| CommonHighLevel.VertexCardinalSymmetric | src/common/highlevel.rs:200-221 | the cardinal type of a vertex conflict does not depend on which agent is first, and is Unknown exactly when neither agent has an MDD |
| CommonHighLevel.EdgeCardinalSymmetric | src/common/highlevel.rs:269-297 | with each MDD looked up on its own agent's cells, swapping the agents of an edge conflict keeps its cardinal type |
| CommonHighLevel.EdgeCardinalAsWrittenMisreadsSecondMdd | src/common/highlevel.rs:286-294 | as written, when only agent 2 has an MDD, it is looked up on agent 1's cells: a swap a -> b / b -> a whose MDD is single at agent 2's cells is NonCardinal, but SemiCardinal with the agents swapped or with agent 2's cells |
| CommonHighLevel.ConflictsSound | src/common/highlevel.rs:169-317 | every detected conflict is real: two distinct agents on the same cell (a finished path standing on its last cell) at a step >= 1, a Target conflict naming first an agent that has finished on its goal, or two agents i < j swapping cells along an edge |
| CommonHighLevel.SharedCellReported | src/common/highlevel.rs:186-252 | two agents i < j on the same cell at a step from 1 to the longer path's length - 1 are reported: as Target(i, j) when i has finished on its goal, else Target(j, i) when j has, else Vertex(i, j) |
| CommonHighLevel.SwapReported | src/common/highlevel.rs:255-309 | two agents i < j whose paths both run past step t and swap cells between t - 1 and t are reported as an Edge conflict of i and j |
| CommonHighLevel.DetectConflicts | src/common/highlevel.rs:169-317 | the node's conflicts become exactly the conflicts found over all pairs i < j and steps 1 .. max length - 1, in that order, with edge conflicts classed by the corrected `EdgeCardinal` (Findings row 4); nothing else in the node changes |
| CommonHighLevel.DetectRow | src/common/highlevel.rs:174-312 | the loop over the second agent collects the conflicts of every pair (i, j), j > i, in order, classed by the corrected edge cardinal test |
| CommonHighLevel.DetectPair | src/common/highlevel.rs:186-310 | the step loop collects the conflicts of one pair at steps 1 .. max length - 1, in order, classed by the corrected edge cardinal test |
| CommonHighLevel.RootQuery | src/common/highlevel.rs:109-146 | cbs and hbcbs run the plain A* and lbcbs, bcbs, ecbs and decbs the focal search with `Some(0)` and the paths found so far, with no constraints and a zero path-length limit; another solver name is `unreachable!` and a focal solver without a bound is an `unwrap` panic |
| CommonHighLevel.New | src/common/highlevel.rs:96-166 | the root holds one path, f_min and MDD per agent, each what its search found after the agents before it, no constraints, zero limits, the sum of path costs and its detected conflicts (with the corrected edge cardinal test); a failed search gives `None`; an unknown solver or missing bound panics; an index panic only when ids are not 0..n-1 |
| CommonHighLevel.NewConstraintsBlockChosen | src/common/highlevel.rs:338-387 | a child only adds constraints, and the replanned agent may no longer stand on the blocked cell at the conflict's time (at every later time too, under target reasoning); without target reasoning no other agent's set changes |
| CommonHighLevel.NewConstraintsSpareParkedAgent | src/common/highlevel.rs:365-378 | the corrected target reasoning leaves the agent parked on its goal unconstrained |
| CommonHighLevel.NewConstraintsAsWrittenSkipsReplanned | src/common/highlevel.rs:365-378 | as written, target reasoning adds nothing to the replanned agent_2 and forbids the parked agent_1 its own goal |
| CommonHighLevel.NewPathLengthConstraints | src/common/highlevel.rs:380-385 | a Target conflict resolved on agent_1's side raises agent_1's path-length limit to at least the conflict's time; every other limit is unchanged |
| CommonHighLevel.UpdateQuery | src/common/highlevel.rs:389-445 | the child's search is for the replanned agent with its new constraints and limit: plain A* for cbs and hbcbs, the focal search with `Some(0)` for lbcbs, bcbs and ecbs and with `None` for decbs, both over the parent's paths |
| CommonHighLevel.AddConflictConstraints | src/common/highlevel.rs:327-387 | the cloned constraint sets and path-length limits, with the corrected target rule (Findings row 5), become the child's new ones |
| CommonHighLevel.UpdateConstraint | src/common/highlevel.rs:318-469 | `None` exactly when the child's search fails; otherwise the child has the new constraints and limits (by the corrected target rule), the replanned agent's new path, f_min and MDD, cost adjusted by the change in path length, and its conflicts detected; an unknown solver or missing bound panics |
| CommonHighLevel.UpdateBypassNode | src/common/highlevel.rs:472-485 | the bypass node keeps the parent's agents, constraints and limits and takes the child's conflicts and cost |
| CommonHighLevel.BypassIsChildWithParentConstraints | src/common/highlevel.rs:472-485 | bypassing with a child gives that child with the parent's constraints and limits, still well formed, with its conflicts those of its paths |
| CommonHighLevel.ConflictsIgnoreConstraints | src/common/highlevel.rs:169-317 | the conflicts detected depend only on the agents, paths and MDDs |
| CommHighLevel.ConflictKeyInjective | src/solver/comm/highlevel.rs:68-77 | the derived order of conflicts tells distinct conflicts apart |
| CommHighLevel.ConflictsKeyInjective | src/solver/comm/highlevel.rs:68-77 | the order on conflict lists tells distinct lists apart |
| CommHighLevel.OpenOrderEqual | src/solver/comm/highlevel.rs:68-77 | two open nodes compare equal exactly when their cost, conflicts and paths agree |
| CommHighLevel.OpenOrderCostFirst | src/solver/comm/highlevel.rs:68-72 | an open node of lower cost comes first |
| CommHighLevel.FocalOrderEqual | src/solver/comm/highlevel.rs:399-407 | two focal nodes compare equal exactly when focal value, cost, conflicts and paths agree |
| CommHighLevel.FocalOrderFocalFirst | src/solver/comm/highlevel.rs:399-407 | a focal node with fewer conflicts comes first, and at equal focal value the lower cost does |
| CommHighLevel.OpenFocalRoundTrip | src/solver/comm/highlevel.rs:373-397 | converting an open node to a focal node and back gives the same node |
| CommHighLevel.FocalOpenRoundTrip | src/solver/comm/highlevel.rs:415-427 | converting a focal node to an open node and back gives it back exactly when its focal value is its conflict count |
| CommHighLevel.DetectConflicts | src/solver/comm/highlevel.rs:143-231 | the node's conflicts become exactly the conflicts found over all pairs i < j and steps 1 .. max length - 1, in order; nothing else changes |
| CommHighLevel.DetectRow | src/solver/comm/highlevel.rs:147-228 | the loop over the second agent collects the conflicts of every pair (i, j), j > i, in order |
| CommHighLevel.DetectPair | src/solver/comm/highlevel.rs:156-227 | the step loop collects the conflicts of one pair at steps 1 .. max length - 1, in order |
| CommHighLevel.ConflictsMatchCommon | src/solver/comm/highlevel.rs:143-231 | this detector finds exactly what the MDD-free common detector finds on the same paths, except that a Target conflict keeps its agents in index order and names the parked agent; every conflict has agent_1 < agent_2 |
| CommHighLevel.ConflictsSound | src/solver/comm/highlevel.rs:143-231 | every detected conflict is real (a shared cell, a swap, or an agent parked on its goal), and a Target conflict's `extended_agent` has finished on its goal |
| CommHighLevel.SharedCellReported | src/solver/comm/highlevel.rs:168-205 | two agents i < j on the same cell at a step from 1 to the longer path's length - 1 are reported: Target parked i when i has finished on its goal, else Target parked j, else Vertex |
| CommHighLevel.SwapReported | src/solver/comm/highlevel.rs:206-226 | two agents i < j whose paths both run past step t and swap cells between t - 1 and t are reported as an Edge conflict |
| CommHighLevel.RootQuery | src/solver/comm/highlevel.rs:98-111 | cbs and hbcbs run the plain A* and lbcbs, bcbs, ecbs and decbs the focal search with f_min 0 and the paths so far, without constraints and with a zero limit; another solver is `unreachable!`, a focal solver without a factor an `unwrap` panic |
| CommHighLevel.NewAsWritten | src/solver/comm/highlevel.rs:86-141 | as written a failed search does not stop the loop: when agent 0's search fails and agent 1's succeeds, `paths.insert(1, ..)` into an empty vector panics; a returned root is well formed |
| CommHighLevel.New | src/solver/comm/highlevel.rs:86-141 | the root holds one path and f_min per agent, each what its search found after the agents before it, no constraints, zero limits, the sum of costs and its detected conflicts; a failed search gives `None`; an index panic only when ids are not 0..n-1 |
| CommHighLevel.RootFoundExtends | src/solver/comm/highlevel.rs:98-121 | appending the next agent's path keeps every earlier agent's root search as it was |
| CommHighLevel.NewPathLengthConstraints | src/solver/comm/highlevel.rs:294-296 | replanning a Target conflict's parked agent sets its limit to the conflict's time; every other limit is unchanged |
| CommHighLevel.NewConstraintsBlockChosen | src/solver/comm/highlevel.rs:251-297 | a child only adds constraints; the replanned agent may not be on the conflict cell at its time (u for agent 1 of an edge, v for agent 2); under target reasoning not at any later time either, the parked agent's set is unchanged and every other agent gets the permanent constraint; otherwise no other set changes |
| CommHighLevel.NewConstraintsMatchCorrectedCommon | src/solver/comm/highlevel.rs:276-287 | target reasoning here spares the parked agent, as the corrected common rule does |
| CommHighLevel.UpdateQuery | src/solver/comm/highlevel.rs:300-332 | the child's search is for the replanned agent with its new constraints and limit: plain A* for cbs and hbcbs, the focal search from the agent's f_min for lbcbs, bcbs and ecbs, the double search for decbs |
| CommHighLevel.AddConflictConstraints | src/solver/comm/highlevel.rs:243-297 | the cloned constraint sets and path-length limits become the child's new ones |
| CommHighLevel.UpdateConstraint | src/solver/comm/highlevel.rs:233-359 | `None` exactly when the child's search fails; otherwise the child has the new constraints and limits, the replanned path and f_min, the cost adjusted by the change in path cost, and its conflicts detected; an unknown solver or missing factor panics |
| CommHighLevel.UpdateBypassPath | src/solver/comm/highlevel.rs:361-371 | the bypass node keeps the parent's agents, constraints, limits, cost and f_mins |
| CommHighLevel.BypassPathKeepsCostIffSameLength | src/solver/comm/highlevel.rs:361-371 | since the cost is kept, the bypass node's cost is its sum of path costs exactly when the new path is as long as the replaced one |
| CommHighLevel.BypassPathConflictsMatch | src/solver/comm/highlevel.rs:361-371 | bypassing with a child's path and conflicts gives the child's paths and the conflicts of those paths |
| SolverCommon.LowOrderReversed | src/solver/common.rs:16-21 | a low-level node with lower f cost, or equal f cost and lower g cost, is the greater one (the max-heap pops it first); equal exactly when both costs agree; the order is antisymmetric |
| SolverCommon.MapSumUpdate | src/solver/common.rs:56-57 | replacing one entry changes a sum over a map by the new value minus the old one |
| SolverCommon.HighOrderCostThenConstraints | src/solver/common.rs:52-61 | a high-level node of lower cost is the greater one, and at equal cost the one with more constraints is; equal exactly when cost and constraint count agree |
| SolverCommon.New | src/solver/common.rs:70-86 | the root has the given agents, no constraints and no parent, each found path under its agent's id (a later agent winning) and the total full length of the found paths |
| SolverCommon.FoundPathsKeys | src/solver/common.rs:72-78 | an id has a path in the root exactly when some agent with that id was found one |
| SolverCommon.FoundPathsDistinct | src/solver/common.rs:70-86 | with distinct ids, every found agent's path is stored under its id and the root's cost is the sum of the stored paths' full lengths |
| SolverCommon.DetectConflicts | src/solver/common.rs:88-118 | `None` when no conflict is found, otherwise every shared cell of every pair in key order, pair by pair and step by step |
| SolverCommon.StepsIff | src/solver/common.rs:98-109 | a conflict is among a pair's first `s` steps exactly when both agents are on its cell at its step |
| SolverCommon.PairsIff | src/solver/common.rs:93-110 | a conflict is in the row of agent `ids[i]` up to `j` exactly when it is a shared cell of `ids[i]` and an agent between them |
| SolverCommon.RowsIff | src/solver/common.rs:92-111 | a conflict is in the first `i` rows exactly when it is a shared cell of a pair whose first agent is among them |
| SolverCommon.ConflictsIff | src/solver/common.rs:88-111 | a conflict is reported exactly when it is a cell both agents occupy at the same index, the first agent coming first in key order |
| SolverCommon.NoConflictIffNoSharedCell | src/solver/common.rs:113-117 | `detect_conflicts` returns `None` exactly when no two agents' paths share a cell at the same index |
| SolverCommon.AddConstraint | src/solver/common.rs:125-129 | `entry(a).or_default().insert(c)` gives agent `a` its old set (or the empty one) plus `c` and leaves the other agents' sets alone |
| SolverCommon.UpdateConstraint | src/solver/common.rs:120-148 | an agent index past the agents is an index panic; a failed search returns the parent unchanged; otherwise the child has the new constraint, the new path and the cost adjusted by the change in full length, with the parent as parent; a cost below the old length is a subtraction overflow |
| SolverCommon.ChildKeepsCostAndCountsConstraint | src/solver/common.rs:131-137 | when the cost is the sum of the path lengths, a child cannot overflow, keeps that sum, and has one more constraint unless the new one was already there |
| SolverHighLevel.FindFirst | src/solver/cbs.rs:42-58 | `find` returns the index of the first conflict of the given cardinal type, and none exactly when no conflict has it |
| SolverHighLevel.ChooseConflict | src/solver/cbs.rs:42-62 | no conflict exactly for an empty list; without prioritisation the first conflict; with it the first conflict of the least rank Cardinal < SemiCardinal < NonCardinal < Unknown |
| SolverHighLevel.SharedCellDetected | src/common/highlevel.rs:186-252 | two agents on one cell at a compared step make the conflict list non-empty |
| SolverHighLevel.SwapDetected | src/common/highlevel.rs:255-309 | two agents swapping cells make the conflict list non-empty |
| SolverHighLevel.NoConflictsCollisionFree | src/solver/cbs.rs:149-159 | a node with no detected conflict, the one returned as the solution, has collision-free paths: no shared cell at any step, a finished agent waiting on its last cell, and no swap |
| SolverHighLevel.CommSharedCellDetected | src/solver/comm/highlevel.rs:168-205 | two agents on one cell at a compared step make the conflict list non-empty |
| SolverHighLevel.CommSwapDetected | src/solver/comm/highlevel.rs:206-226 | two agents swapping cells make the conflict list non-empty |
| SolverHighLevel.CommNoConflictsCollisionFree | src/solver/decbs.rs:91-101 | a node of the older solvers with no detected conflict has collision-free paths |
| SolverHighLevel.DetectedFits | src/common/highlevel.rs:155-165 | a node carrying its own detected conflicts keeps the node invariant: its conflicts name its agents and none means collision free |
| SolverHighLevel.CommDetectedFits | src/solver/comm/highlevel.rs:122-135 | the same for the nodes of the older solvers |
| SolverHighLevel.ViewFits | src/common/highlevel.rs:487-500 | the focal view of a fitting node is valid and converts back to the node |
| SolverHighLevel.ChildFits | src/common/highlevel.rs:452-468 | a child returned by `update_constraint` keeps the node invariant, and is well formed when its parent is |
| SolverHighLevel.BypassFits | src/common/highlevel.rs:472-485 | the bypass node built from a child of a well-formed node fits, is well formed and is the child under the parent's constraints |
| SolverHighLevel.ExtendsInsert | src/solver/hbcbs.rs:104 | `BTreeSet::insert` of one node extends the list by that node under its own key |
| SolverHighLevel.ExtendsOpenOk | src/solver/hbcbs.rs:100-114 | inserting fitting nodes keeps every open entry under its own key and fitting |
| SolverHighLevel.ExtendsFocalOk | src/solver/hbcbs.rs:100-114 | inserting valid focal views keeps every focal entry valid |
| SolverHighLevel.CommExtendsOpenOk | src/solver/decbs.rs:63-90 | the same for the open list of the older nodes |
| SolverHighLevel.CommExtendsFocalOk | src/solver/decbs.rs:63-90 | the same for the focal list of the older nodes |
| SolverHighLevel.FocalKeyOfOpenKey | src/common/highlevel.rs:78-87 | nodes equal in the open order are equal in the focal order |
| SolverHighLevel.PopKeepsBacked | src/solver/hbcbs.rs:41-45 | after popping the least focal node and removing its node from open, every other focal entry's node is still in open |
| SolverHighLevel.ExtendsKeepsBacked | src/solver/hbcbs.rs:100-114 | inserting into both lists keeps every focal node in open when each inserted focal view's node was inserted into open |
| SolverHighLevel.InitLists | src/solver/hbcbs.rs:38-39 | open holds the root and focal its focal view, both valid, with focal backed by open |
| SolverHighLevel.PopFocal | src/solver/hbcbs.rs:41-45 | the popped node is the least focal entry's node; `open.first()` finds a node whenever focal was backed by open; the node is removed from open and focal, and both stay valid and backed |
| SolverHighLevel.BandKeepsFocal | src/solver/hbcbs.rs:128-140 | adding the open nodes of the band keeps focal valid, and backed if it was |
| SolverHighLevel.LeastOpenCost | src/solver/hbcbs.rs:43 | the first node of a cost-ordered open list has the least cost in it |
| SolverHighLevel.KeyOrderCost | src/common/highlevel.rs:78-81 | a node not after another in the open order has no greater cost |
| SolverHighLevel.LeastFocalFirst | src/solver/hbcbs.rs:41 | the node `pop_first` takes from focal has the fewest conflicts, and the least cost among those |
| SolverHighLevel.KeyOrderFocal | src/common/highlevel.rs:515-523 | a focal node not after another has no more conflicts, and no greater cost at equal conflicts |
| SolverHighLevel.CommLeastOpenCost | src/solver/decbs.rs:48 | the first node of the older open list has the least cost in it |
| SolverHighLevel.CommKeyOrderCost | src/solver/comm/highlevel.rs:68-72 | a node not after another in the older open order has no greater cost |
| SolverHighLevel.CommLeastFocalFirst | src/solver/decbs.rs:46 | the node popped from the older focal list has the fewest conflicts, and the least cost among those |
| SolverHighLevel.CommKeyOrderFocal | src/solver/comm/highlevel.rs:399-407 | a node not after another in the older focal order has no more conflicts, and no greater cost at equal conflicts |
| SolverHighLevel.WithinNotInBand | src/solver/hbcbs.rs:101-134 | a node already within the old threshold never lies in the band above it, so the band adds only nodes not admitted before |
| SolverHighLevel.BandJoins | src/solver/hbcbs.rs:128-140 | for a non-negative factor, within the old threshold or in the band is exactly within the new threshold |
| SolverHighLevel.ExtendFocal | src/solver/hbcbs.rs:128-140 | focal keeps its entries, gains every open node whose cost lies in (w * old, w * new], and gains nothing else |
| SolverHighLevel.CommChildFits | src/solver/comm/highlevel.rs:233-359 | a child of a fitting older node fits and has the same agents |
| SolverHighLevel.CommFocalKeyOfOpenKey | src/solver/comm/highlevel.rs:68-77 | older nodes equal in the open order are equal in the focal order |
| SolverHighLevel.CommPopKeepsBacked | src/solver/decbs.rs:46-50 | after popping the least focal node and removing it from open, every other focal entry's node is still in open |
| SolverHighLevel.CommExtendsKeepsBacked | src/solver/decbs.rs:63-90 | inserting into both older lists keeps focal backed when every inserted focal view's node was inserted into open |
| SolverHighLevel.CommInitLists | src/solver/decbs.rs:44-45 | open holds the root and focal its focal view, valid and backed |
| SolverHighLevel.CommPopFocal | src/solver/decbs.rs:46-50 | the popped node is the least focal entry's node; `open.first()` finds one whenever focal was backed; the node leaves both lists, which stay valid and backed |
| SolverHighLevel.CommBandKeepsFocal | src/solver/decbs.rs:104-118 | adding the open nodes of the band keeps the older focal list valid, and backed if it was |
| SolverCbs.InsertsFit | src/solver/cbs.rs:78-148 | an expansion inserts at most two nodes, all well formed and fitting; when a child bypasses, only bypass nodes, each with the parent's cost and constraints, fewer conflicts and a bypassing child's paths; otherwise exactly the children found |
| SolverCbs.BypassInsertsFit | src/solver/cbs.rs:78-130 | the bypass nodes an expansion inserts fit, keep the parent's cost and constraints, have fewer conflicts than the parent and carry a bypassing child's paths |
| SolverCbs.Expand | src/solver/cbs.rs:64-148 | both sides of the conflict are replanned; open gains exactly the inserted nodes, each counted; the only panics are those of `update_constraint` for a solver it does not dispatch |
| SolverCbs.InsertChildren | src/solver/cbs.rs:78-148 | open gains the bypass nodes, or else both existing children, and the count is their number |
| SolverCbs.InsertOne | src/solver/cbs.rs:137-138 | one insertion adds the node under its key and counts one expanded node |
| SolverCbs.Solve | src/solver/cbs.rs:28-167 | a returned solution has one collision-free path per agent and its sum of path costs is the recorded cost; a panic comes only from agent ids that are not indices or an undispatched solver; each iteration counts at most two nodes |
| SolverLbcbs.InsertsFit | src/solver/lbcbs.rs:48-92 | an expansion inserts at most two nodes, all well formed and fitting: a single bypass node with the parent's cost and constraints, fewer conflicts and the first bypassing child's paths, or else exactly the children found |
| SolverLbcbs.Expand | src/solver/lbcbs.rs:37-92 | the first side is replanned, the second only when the first does not bypass; open gains exactly the inserted nodes, each counted; the only panics are those of `update_constraint` |
| SolverLbcbs.InsertChildren | src/solver/lbcbs.rs:48-92 | open gains the first child's bypass node, else the second's, else both existing children, and the count is their number |
| SolverLbcbs.Solve | src/solver/lbcbs.rs:28-111 | a returned solution has one collision-free path per agent and its sum of path costs is the recorded cost; a panic comes only from ids that are not indices, a missing low-level bound, or an undispatched solver; each iteration counts at most two nodes |
| SolverHbcbs.BypassPathFits | src/solver/hbcbs.rs:58-98 | the bypass node of a child with no greater cost fits: it has the child's paths and conflicts under the parent's cost, constraints and limits |
| SolverHbcbs.InsertsFit | src/solver/hbcbs.rs:47-114 | every inserted node fits; a bypass inserts one node into open (the child's paths and conflicts under the parent's cost and constraints) and the bypassing child's view into focal; otherwise open receives exactly the children found and focal exactly the views of those within `w` times the old minimum |
| SolverHbcbs.PlainInsertsFit | src/solver/hbcbs.rs:100-114 | without a bypass, open receives the children found and focal the views of exactly those within the threshold |
| SolverHbcbs.Expand | src/solver/hbcbs.rs:47-114 | the first side is replanned, the second only when the first does not bypass; open and focal gain exactly the listed insertions, each open insertion counted; the only panics are those of `update_constraint` |
| SolverHbcbs.InsertChildren | src/solver/hbcbs.rs:58-114 | open gains the first bypass node, else the second, else both existing children; focal gains the bypassing child's view, else the admitted children's views |
| SolverHbcbs.InsertBypass | src/solver/hbcbs.rs:63-69 | the bypass node goes into open and the bypassing child's focal view into focal |
| SolverHbcbs.InsertChild | src/solver/hbcbs.rs:100-106 | a found child always enters open, and focal when its cost is within `w` times the old minimum |
| SolverHbcbs.Step | src/solver/hbcbs.rs:47-140 | one iteration after the pop keeps both lists valid, only grows them and counts at most two nodes; its only panics are those of `update_constraint` |
| SolverHbcbs.Solve | src/solver/hbcbs.rs:28-147 | a missing high-level bound panics first; a returned solution has one collision-free path per agent and a cost at least its sum of path costs; other panics come from ids that are not indices, an undispatched solver, or `open.first().unwrap()` on an empty open list; each iteration counts at most two nodes |
| SolverBcbs.Expand | src/solver/bcbs.rs:52-89 | both children are replanned; open gains exactly the children found that are not closed, each counted, and focal exactly the views of those within the high-level bound times the popped cost; a missing low-level bound, or a missing high-level bound once a fresh child must be admitted, panics with `UnwrapNone` |
| SolverBcbs.InsertChildren | src/solver/bcbs.rs:60-89 | open gains the fresh children in order and focal the views of the fresh children within the threshold; the count is the number of fresh children |
| SolverBcbs.InsertChild | src/solver/bcbs.rs:60-69 | a child that was found and is not closed enters open and is counted, and enters focal exactly when its cost is within the threshold |
| SolverBcbs.InsertsFit | src/solver/bcbs.rs:52-89 | at most two nodes are inserted, each fitting the instance and none closed; focal receives the views of exactly the inserted nodes within the threshold |
| SolverBcbs.Step | src/solver/bcbs.rs:52-117 | one iteration after the pop keeps open and focal valid, only grows them, inserts no closed node and counts at most two nodes; it panics only when a bound is missing, and never with both bounds |
| SolverBcbs.Solve | src/solver/bcbs.rs:31-123 | a returned solution has one collision-free path per agent and `costs` equals its sum of path costs; with the corrected root (Findings row 6), panics come only from ids that are not indices or a missing bound, never with both bounds; a missing low-level bound with at least one agent panics; at most one node is closed per iteration |
| SolverDecbs.Expand | src/solver/decbs.rs:51-90 | both children are replanned with solver "decbs"; it succeeds exactly when the low-level bound is present; open gains exactly the children found, each counted, and focal exactly the views of those within the bound times the `f_min` sum |
| SolverDecbs.InsertChild | src/solver/decbs.rs:63-70 | a found child enters open and is counted, and enters focal exactly when its cost is within the threshold |
| SolverDecbs.InsertsFit | src/solver/decbs.rs:54-90 | at most two nodes are inserted, each fitting the instance; focal receives the views of exactly the inserted nodes within the threshold |
| SolverDecbs.Step | src/solver/decbs.rs:51-118 | one iteration after the pop keeps open and focal valid with every focal node backed by open, only grows them and counts at most two nodes; it fails exactly when the low-level bound is missing |
| SolverDecbs.Solve | src/solver/decbs.rs:31-125 | a returned solution has one collision-free path per agent and `costs` equals its sum of path costs; `open.first().unwrap()` never panics; with the corrected root (Findings row 6), the only panics are a missing low-level bound with at least one agent, or ids that are not indices |
| SolverAcbs.InsertsFit | src/solver/acbs.rs:74-168 | an expansion inserts at most two nodes into open, each well formed and fitting, and every focal insertion is a valid view whose node is among the open insertions |
| SolverAcbs.BypassInsertsFit | src/solver/acbs.rs:88-144 | when a child bypasses, every open insertion is a found child carrying the parent's constraints and path-length constraints, and every focal insertion is a valid view of an inserted node |
| SolverAcbs.InsertsWithoutBypass | src/solver/acbs.rs:146-168 | without a bypass, open receives exactly the children found, and focal exactly the views of those within `w` times the least `f_min` sum |
| SolverAcbs.Expand | src/solver/acbs.rs:74-168 | both children are replanned; it succeeds exactly when the configured solver dispatches, otherwise the dispatch panic; open and focal gain exactly the listed insertions, each open insertion counted |
| SolverAcbs.InsertChildren | src/solver/acbs.rs:88-168 | open and focal gain exactly the bypass insertions, or else the found and admitted children, and the count is the number of open insertions |
| SolverAcbs.InsertBypass | src/solver/acbs.rs:100-105 | the bypass node (child's paths under the parent's constraints) goes into open, the bypassing child's view into focal, counted once |
| SolverAcbs.InsertChild | src/solver/acbs.rs:146-156 | a found child always enters open and is counted, and enters focal exactly when within `w` times the least `f_min` sum |
| SolverAcbs.Step | src/solver/acbs.rs:74-194 | one iteration after the pop keeps open and focal valid with focal backed by open, only grows them and counts at most two nodes; it fails exactly when the solver does not dispatch |
| SolverAcbs.Search | src/solver/acbs.rs:42-195 | from a fitting root, the loop panics only with the dispatch panic of a solver that does not dispatch; `open.first().unwrap()` never panics; a returned solution has one collision-free path per agent and its cost is the sum of path costs |
| SolverAcbs.Solve | src/solver/acbs.rs:28-199 | a missing low-level bound panics with `UnwrapNone`; with the bound, any instance with at least one agent reaches `unreachable!()` in `new`, which has no "acbs" arm; a returned solution is collision-free |
| SolverEcbs.OpenKey | src/solver/ecbs.rs:44-51 | the open key is the triple whose first component is the node's `f_min` sum, so the map's first entry has the least `f_min` sum |
| SolverEcbs.Replace | src/solver/ecbs.rs:71-78 | `BTreeMap::insert` of each node in turn keeps every old key, makes every inserted node's key present, and leaves under each key either the old entry or an inserted node stored under its own key |
| SolverEcbs.ReplaceOk | src/solver/ecbs.rs:71-104 | inserting fitting nodes keeps every open entry under its own key and fitting |
| SolverEcbs.ReplaceAppend | src/solver/ecbs.rs:62-114 | inserting along a concatenation is inserting along each part in turn |
| SolverEcbs.ExpandConflict | src/solver/ecbs.rs:63-113 | both children are replanned; it fails, with `UnwrapNone`, exactly when the low-level bound is missing; open receives the fresh children under their keys, each counted, and focal is pushed the fresh children within `w` times `f_min`, in order |
| SolverEcbs.InsertChild | src/solver/ecbs.rs:70-86 | a child found and not closed is inserted into open and counted, and pushed onto focal exactly when within the threshold |
| SolverEcbs.GrownNothing | src/solver/ecbs.rs:61-62 | before any conflict is expanded the lists are trivially grown from themselves |
| SolverEcbs.GrownStep | src/solver/ecbs.rs:62-114 | the fitting children of one more conflict keep open valid with its old keys, bring in no closed node, and only extend focal with fitting nodes within the threshold |
| SolverEcbs.FreshFit | src/solver/ecbs.rs:70-111 | the fresh children of fitting replanning fit and are not closed; the admitted ones are also within `w` times `f_min` |
| SolverEcbs.ReplaceKeeps | src/solver/ecbs.rs:71-104 | inserting fitting nodes that are not closed keeps open valid and its keys, and every new or replaced entry is not closed |
| SolverEcbs.PushKeeps | src/solver/ecbs.rs:84-110 | pushing fitting, non-closed nodes within the threshold keeps the heap valid and leaves its old elements as a prefix |
| SolverEcbs.ExpandAll | src/solver/ecbs.rs:61-114 | every conflict of the node is expanded in turn; it panics with `UnwrapNone` exactly when the bound is missing and there is a conflict; otherwise each conflict's two replanned children are found, open becomes the old open with every fresh child inserted under its key in conflict order, focal the old focal followed by every fresh child within `f_min * w` in the same order, the count is the number of fresh children, and the lists stay valid |
| SolverEcbs.ExpandEach | src/solver/ecbs.rs:62-114 | under a low-level bound, each conflict in turn yields its two replanned children; open and focal end as the old lists with every fresh child inserted, and every admitted one pushed, in conflict order; the lists stay valid and at most two nodes per conflict are counted |
| SolverEcbs.BandMembers | src/solver/ecbs.rs:134-140 | the band holds exactly the open nodes whose `f_min` sum lies in (w * low, w * high], visited in ascending key order |
| SolverEcbs.BandOrdered | src/solver/ecbs.rs:134-140 | where every entry sits under its own key, the band comes in strictly ascending key order |
| SolverEcbs.AscendingDistinct | src/solver/ecbs.rs:134-140 | nodes in strictly ascending key order are pairwise distinct, so no open node is pushed twice |
| SolverEcbs.PushBand | src/solver/ecbs.rs:134-140 | focal becomes the old focal followed by the band, in ascending key order: it gains exactly the open nodes whose `f_min` sum lies in (w * old, w * new] |
| SolverEcbs.MaintainFocal | src/solver/ecbs.rs:128-141 | when open is empty or its least `f_min` sum has not risen, focal is unchanged; otherwise focal becomes the old focal followed by the band of open nodes between the two thresholds, each pushed once, in strictly ascending key order; focal stays valid |
| SolverEcbs.PopFocal | src/solver/ecbs.rs:53-59 | the heap loses exactly the element `pop` takes, its key is removed from open, and both lists stay valid |
| SolverEcbs.Solve | src/solver/ecbs.rs:30-148 | a returned solution has one collision-free path per agent and `costs` equals its sum of path costs; with the corrected root (Findings row 6), the only panics are a missing low-level bound with at least one agent, or ids that are not indices; each iteration closes at most one node |

## Left out

- File and process I/O is not modelled: opening and reading the map, `.scen` and YAML files, `load_agents_from_yaml` / `write_agents_to_yaml`, the `debug.yaml` write (src/scenario.rs:180), CSV reading and writing in the tools, `check_and_create_csv` and the file append in `write_error_csv`. The per-line parsing and the row contents are modelled.
- The map file's header lines (src/map.rs:34-50) are not parsed; `GridMap.FromFile` takes the height, width and body lines.
- `Stats::print`, all logging, and wall-clock timing (`Instant::now`, `elapsed`) are left out. The search statistics counters are not modelled, apart from `high_level_expand_nodes`, which the solvers return as a count.
- `subprocess.run` and `ThreadPoolExecutor` in `tools/experiment.py` are left out. The solver process's outcome is an oracle on the command.
- The plotting scripts under `tools/plot/` and `tools/transfrom.py` are left out, as are the wiring files `src/main.rs`, `src/common.rs`, `src/solver.rs` and `src/solver/comm.rs`.
- Randomness is passed in as parameters. `choose` is a draw sequence, and `shuffle` is any permutation, given as a parameter with a multiset precondition. `HashMap` iteration order is an `order` parameter listing the keys.
- The `sort` before the shuffle in `generate_agents_randomly` (src/scenario.rs:153) is not modelled, because the shuffle that follows is any permutation.
- Callees the repository does not show are uninterpreted or passed in:
  - `construct_mdd`, `Mdd` (an opaque type) and `Mdd::is_singleton_at_position` (the parameter `isSingleton`);
  - `sub_optimal_bypass_comparation` (the parameter `compare`);
  - the three-argument `Constraint::is_violated`;
  - the `get_neighbors` with a wait flag and the heuristic table that src/algorithm/*.rs use;
  - `node_id`, which cbs.rs takes and the model ignores.
- `comm::HighLevelNode`, which ecbs.rs uses, is not part of this model. ECBS runs over the nodes of src/solver/comm/highlevel.rs, its `conflicts_hash` is an oracle `hash`, and its `BinaryHeap` order is an oracle `pick` naming the element `pop` takes.
- bcbs.rs calls `new` and `update_constraint` without the solver name and target-reasoning flag that src/solver/comm/highlevel.rs requires. The model passes "bcbs" and no target reasoning.
- The low-level node types of src/solver/algorithm/astarfocal.rs are not part of this snapshot. Their orders are taken from the source's comment.
- `f64` is modelled as `real`, without rounding or overflow to infinity. The value of `math.sqrt` is uninterpreted; its domain errors are modelled. `f_min as f64 * w` is written as the sum `Scale(f_min, w)`, which is proved equal to the product.
- Every unbounded loop (the searches, the solver loops, Dijkstra) runs for at most `fuel` iterations and otherwise ends with `OutOfFuel`. Termination of the solver loops is not claimed.
- `usize` arithmetic is unbounded. The one overflow this leaves out is in the searches' `g + h`, given member by member below. The debug-build underflow of `cost - old_len + new_len` is the `SubtractOverflow` panic where it can occur. The searches always return paths of at least two cells, so src/solver/algorithm/astar.rs never underflows.
- `Algorithm.ConstructPath` assumes the trace is acyclic, as a rank function that decreases along it. A cyclic trace would make `construct_path` loop forever.
- `AStar.AStarSearch` does not state that the returned path is a shortest one. src/astar.rs looks tiles up as `grid[p.1][p.0]`, transposed from the map's `grid[x][y]`, so the neighbour lists it follows need not be the cell's own.
- `AlgorithmAStar.OpenRunDelivers` states that a returned path is a plan to the goal, not that it has the fewest moves.
- `AlgorithmAStarFocal.FocalRunSound` bounds the returned path's f value by `f_min * w` but does not relate `f_min` to the optimal cost.
- `SolverAStar.AStarSearch` and `SolverAStarFocal.FocalAStarSearch` state soundness and the panic cases, not optimality or the suboptimality bound.
- `SolverCbs.Solve` does not state that the returned cost is minimal. Neither does any bounded variant's `Solve` state that it is within its bound of the minimum. Each states that the solution is collision-free, one path per agent, and how its cost relates to the paths.
- `SolverHbcbs.Solve` states only that the cost is at least the sum of path costs, because a bypass node keeps its parent's cost while taking the child's path (src/solver/comm/highlevel.rs:361-371).
- hbcbs.rs calls `update_bypass_path` on the nodes of src/common/highlevel.rs, although only src/solver/comm/highlevel.rs defines it. The model gives those nodes the same operation.
- The tools' pandas and numpy calls are modelled only as far as the modelled functions use them: `groupby`, boolean masks, `to_numeric(errors='coerce')`, `unique` and `np.percentile(..., method="nearest")`.
- Stat.CalculateSolverStats: visits the groups in the order their keys first appear in the table. pandas `groupby` sorts the keys, so the summaries are the same but may come in a different order.
- Stat.CheckSolverCosts: the warnings are the same as with sorted `groupby` keys, but may come in a different order, for the same reason.
- Experiment.Sqrt: an integer too large to convert to a float, for which `math.sqrt` raises `OverflowError`, is accepted like any other non-negative integer.
- AlgorithmAStarFocal.VisitNeighbor: decreases a key with the corrected `DecreaseKey`, not with the code at src/algorithm/astarfocal.rs:228-241, which re-inserts a focal node that is not the open node (Findings row 1).
- AlgorithmAStarFocal.ExpandFocal: visits through the corrected `VisitNeighbor`, so it does not reproduce the bogus focal node of src/algorithm/astarfocal.rs:228-241.
- AlgorithmAStarFocal.FocalStep: expands through the corrected decrease-key, so its pop never meets the bogus focal node that makes the source's `assert!` (line 149) fail.
- AlgorithmAStarFocal.FocalSearchFrom: computes the run with the corrected decrease-key, not the source's, which can end in the failed `assert!`.
- AlgorithmAStarFocal.StandardFocalAStarSearch: runs the corrected search; the source's can panic on the `assert!` at line 149.
- AlgorithmAStarFocal.StandardFocalDoubleSearch: its focal stage is the corrected search, so the source's `assert!` failure is not reached.
- AlgorithmAStarFocal.FocalAStarSearch: dispatches to the corrected runs, so it never returns the source's `AssertionFailed` panic.
- AlgorithmAStarFocal.VisitLinked: proved of the corrected decrease-key; a visit of the source can leave an unlinked focal node.
- AlgorithmAStarFocal.PopKeeps: the invariant it needs holds under the corrected decrease-key only; the source can reach a pop whose `assert!` fails (`DecreaseKeyAsWrittenPanics`).
- AlgorithmAStarFocal.FocalRunSound: proved of the corrected run, whose only panic is `heuristic_focal`'s; the source can also fail the `assert!`.
- AlgorithmAStarFocal.DoubleRunSound: proved of the corrected run; the source's double search can also fail the `assert!`.
- AlgorithmAStarFocal.FocalAStarSearchSound: proved of the corrected runs; with the source's decrease-key, the `assert!` at line 149 can fail.
- SolverAStarFocal.SearchFrom: removes the popped node's own open entry (`OpenAfterPop`), not the entry keyed by `f_min` that src/solver/algorithm/astarfocal.rs:62-66 removes, so no stale open entry survives (Findings row 2).
- SolverAStarFocal.FocalAStarSearch: runs `SearchFrom`, so it shares its corrected removal.
- SolverAStarFocal.FocalAStarDoubleSearch: runs `SearchFrom`, so it shares its corrected removal, and takes `f_min` in the intended reading of the ill-typed line 196 (Findings row 3).
- CommonHighLevel.DetectPair: classes edge conflicts with the corrected `EdgeCardinal`, not the lookup at src/common/highlevel.rs:286-294, which tests the first agent's cells against the second agent's MDD (Findings row 4).
- CommonHighLevel.DetectRow: collects `DetectPair`'s conflicts, so it carries the corrected edge cardinal types.
- CommonHighLevel.DetectConflicts: collects `DetectRow`'s conflicts, so it carries the corrected edge cardinal types.
- CommonHighLevel.New: the root's conflicts come from `DetectConflicts`, with the corrected edge cardinal types.
- CommonHighLevel.AddConflictConstraints: applies the corrected target rule (`NewConstraints`), which constrains the replanned agent, not the rule of src/common/highlevel.rs:365-378, which spares it (Findings row 5).
- CommonHighLevel.UpdateConstraint: builds the child with the corrected target rule and edge cardinal types.
- SolverCbs.Expand: replans through `CommonHighLevel.UpdateConstraint`, so with target reasoning, bypassing or conflict priorities on it can build and choose differently from the source.
- SolverCbs.Solve: chooses conflicts by the corrected cardinal types and expands through the corrected `UpdateConstraint`.
- SolverLbcbs.Expand: replans through the corrected `CommonHighLevel.UpdateConstraint`.
- SolverLbcbs.Solve: chooses conflicts by the corrected cardinal types and expands through the corrected `UpdateConstraint`.
- SolverHbcbs.Expand: replans through the corrected `CommonHighLevel.UpdateConstraint`.
- SolverHbcbs.Solve: chooses conflicts by the corrected cardinal types and expands through the corrected `UpdateConstraint`.
- SolverAcbs.Expand: replans through the corrected `CommonHighLevel.UpdateConstraint`.
- SolverBcbs.Solve: builds its root with the corrected `CommHighLevel.New`. The source's `new` goes on after a failed search and can panic with `IndexOutOfBounds` even when the ids are indices and both bounds are present (`CommHighLevel.NewAsWritten`, Findings row 6), so the no-panic clause holds of the corrected root only.
- SolverDecbs.Solve: builds its root with the corrected `CommHighLevel.New`, so the `IndexOutOfBounds` panic of the source's `new` after a failed search is not reached, and the no-panic clause holds of the corrected root only.
- SolverEcbs.Solve: builds its root with the corrected `CommHighLevel.New`, so the `IndexOutOfBounds` panic of the source's `new` after a failed search is not reached, and the no-panic clause holds of the corrected root only.
- SolverAStar.AStarSearch: the heuristic is an unbounded `nat`, so `tentative_g_cost + h_open_cost` (src/solver/algorithm/astar.rs:73-76) never overflows. In the source, a cell that cannot reach the goal keeps the `usize::MAX` that `heuristic_dji` starts from (src/map.rs:115). So for an agent whose goal cannot be reached from its start, the first expansion overflows: a debug build panics, and a release build wraps the key to `g - 1`.
- SolverAStarFocal.FocalAStarSearch: the same `g + h` overflow at src/solver/algorithm/astarfocal.rs:94-95 is not modelled.
- AlgorithmAStar.OpenRunCounts: its "never panics" leaves out the `g + h` overflow at src/algorithm/astar.rs:127-132 and :210 for a neighbour whose heuristic is `usize::MAX`. The same holds for the members built on the open-cost and focal-cost runs.
- AlgorithmAStarFocal.FocalRunCounts: the `g + h` overflow at src/algorithm/astarfocal.rs:189-190 is not modelled, nor is it in the other members built on the focal run.
- The calls in src/solver/ do not match the definitions shown. src/solver/comm/highlevel.rs:100 passes five arguments to `a_star_search`, which takes four (src/solver/algorithm/astar.rs:11-16). Lines 101-110 pass eight to `focal_a_star_search`, which takes seven (src/solver/algorithm/astarfocal.rs:15-23). src/solver/algorithm/astar.rs:29 and :76 set a `sort_key` field, but src/solver/comm/lowlevel.rs:6 declares `f_cost`. The model takes each call at its evident meaning: the search oracle `Query` carries the agent, the constraints, the path-length constraint, the bound and the other paths, and `sort_key` is the declared `f_cost` (`fCost` of the low-level node).

## Findings

| source | as written | input that shows it | evidently intended | confidence | as-written member | corrected member |
|---|---|---|---|---|---|---|
| src/algorithm/astarfocal.rs:228-241 | the decrease-key branch calls `create_focal_node` with the prior focal cost in the f_open position, so the node re-inserted into focal is not the open node, and it is inserted even when the node was not in focal | node (0,0) in open but not in focal, with f_open 3 and focal cost 5, rediscovered with focal cost 4: the next pop takes the bogus focal node, and the `assert!` on its removal from open (line 149) fails | replace the node's focal entry under its prior cost, only when present, with one for the same open node under the new cost | high, not executed | AlgorithmAStarFocal.DecreaseKeyAsWrittenPanics | AlgorithmAStarFocal.DecreaseKey |
| src/solver/algorithm/astarfocal.rs:62-66 | the popped node is removed from open under a key built from `f_min` instead of its own f_open | open minimum f_open 5, factor 1.5, and the node of f_open 6 popped first: its open entry survives although the node is closed | remove the popped node's own open entry | high, not executed | SolverAStarFocal.StaleNodeExample | SolverAStarFocal.PoppedLeavesOpen |
| src/solver/algorithm/astarfocal.rs:196 | `f_min` is `a_star_search(..).unwrap().1`, an `Option<usize>` that src/solver/algorithm/astar.rs:47 always sets to `None`; lines 241, 282 and 331 use it as a `usize`, so the function does not type-check | any agent whose plain A* finds a path: `f_min` is `None`, which is not a number the focal threshold or the returned pair can use | take `f_min` from the plain A* path, as its moves plus the goal's heuristic | high, not executed | SolverAStarFocal.FocalAStarDoubleSearchAsWritten | SolverAStarFocal.FocalAStarDoubleSearch |
| src/common/highlevel.rs:286-294 | when only the second agent has an MDD, the edge conflict's cardinal test looks up the first agent's cells in that MDD | agent 1 moves a to b while agent 2 moves b to a, and only agent 2 has an MDD, a single cell at both steps of its own move: the conflict is classed NonCardinal, while the same conflict with the agents swapped is SemiCardinal | test the agent that owns the MDD on its own move, so the class does not depend on the order of the agents | medium, not executed | CommonHighLevel.EdgeCardinalAsWrittenMisreadsSecondMdd | CommonHighLevel.EdgeCardinalSymmetric |
| src/common/highlevel.rs:365-378 | with target reasoning and `resolve_first` false, the permanent constraint goes to every agent except the replanned `agent_2` | a Target conflict with target reasoning on, resolved on the second side: `agent_2` is replanned with no new constraint, and `agent_1`, parked on its goal, is kept off that goal | keep every agent except the parked `agent_1` off the goal, so the replanned agent is constrained | medium, not executed | CommonHighLevel.NewConstraintsAsWrittenSkipsReplanned | CommonHighLevel.NewConstraintsBlockChosen |
| src/solver/comm/highlevel.rs:86-141 | `new` goes on after a failed search and then `Vec::insert`s at an index past the vector's end | two agents with ids 0 and 1, the first search fails and the second finds a path: `paths.insert(1, ..)` on an empty vector panics | return `None` as soon as a search fails | high, not executed | CommHighLevel.NewAsWritten | CommHighLevel.New |
| tools/stat.py:99-105 | the boolean mask `success_runs` is indexed by the label `'costs'`, which raises `KeyError` | one successful cbs row: the first group that is not skipped raises | warn when the successful cbs costs of a group differ | high, not executed | Stat.AsWrittenRaises | Stat.CheckSolverCosts |
| tools/experiment.py:138-147 | acbs is missing from the low-level-only solver list, so `subopt_values` is unbound for it | a failed acbs run whose parameters hold every key the row reads: `write_error_csv` raises `UnboundLocalError` instead of writing its row | list acbs with lbcbs, ecbs and decbs | high, not executed | Experiment.AcbsErrorRowRaises | Experiment.ErrorRowMatchesConfig |
