/**
 * The timeout tally of `analyze_timeouts_total`: the result rows are reduced to one
 * row per experiment setting holding the decbs and ecbs times, and for each of three
 * optimisation cases and each (map, scenario, agent count, low-level bound)
 * configuration the rows are split by which solver timed out, runs missing from the
 * expected 200 seeds are counted, and the successful pairs are compared.
 * Reading the CSV files, the printing and the final percentages are left out.
 */
module Calculation {
  import opened Wrappers

  /** The columns that identify one experiment setting (`merge_cols`). */
  datatype Setting = Setting(mapPath: string, yamlPath: string, numAgents: int, seed: int,
                             lowSub: real, pc: bool, bc: bool, tr: bool)

  /** A result row: its setting, the solver, and `time(us)` after `to_numeric` (`None` if not a number). */
  datatype Record = Record(setting: Setting, solver: string, timeUs: Option<int>)

  /**
   * A row of the pivot table: the setting and both solvers' times. The source divides
   * the times by 10^6 and compares seconds with the threshold; the model keeps
   * microseconds and compares them with the threshold times 10^6, which orders the
   * same values the same way.
   */
  datatype PivotRow = PivotRow(setting: Setting, timeDecbs: int, timeEcbs: int, decbsTimeout: bool, ecbsTimeout: bool)

  /** What Python raises on the way. */
  datatype Raised = KeyError(column: string)

  /** Every configuration is expected to be run with this many seeds. */
  const ExpectedSeeds: nat := 200

  /** The threshold, in seconds, as a time in microseconds. */
  function Limit(threshold: int): int {
    threshold * 1000000
  }

  // ---------------------------------------------------------------------------
  // The pivot table
  // ---------------------------------------------------------------------------

  predicate Matches(r: Record, s: Setting, solver: string) {
    r.setting == s && r.solver == solver
  }

  /** The run at `i` is the setting's first run of `solver` with a numeric time. */
  predicate FirstTimedAt(records: seq<Record>, s: Setting, solver: string, i: int) {
    0 <= i < |records| && Matches(records[i], s, solver) && records[i].timeUs.Some?
    && forall k :: 0 <= k < i && Matches(records[k], s, solver) ==> records[k].timeUs.None?
  }

  /** `groupby(...).first()`: the first numeric time of the setting's runs of `solver`, in microseconds. */
  function FirstTime(records: seq<Record>, s: Setting, solver: string): (t: Option<int>)
    ensures t.None? <==> forall i :: 0 <= i < |records| && Matches(records[i], s, solver) ==> records[i].timeUs.None?
    ensures t.Some? ==> exists i :: FirstTimedAt(records, s, solver, i) && t.value == records[i].timeUs.value
  {
    if records == [] then None
    else if Matches(records[0], s, solver) && records[0].timeUs.Some? then
      Some(records[0].timeUs.value)
    else
      var t := FirstTime(records[1..], s, solver);
      assert forall i :: 0 < i < |records| ==> records[i] == records[1..][i - 1];
      if t.Some? then
        ghost var i :| FirstTimedAt(records[1..], s, solver, i) && t.value == records[1..][i].timeUs.value;
        assert forall k :: 0 <= k < i + 1 && Matches(records[k], s, solver) ==> records[k].timeUs.None? by {
          forall k | 0 <= k < i + 1 && Matches(records[k], s, solver)
            ensures records[k].timeUs.None?
          {
            if k > 0 {
              assert records[k] == records[1..][k - 1];
            }
          }
        }
        assert FirstTimedAt(records, s, solver, i + 1);
        t
      else
        t
  }

  /** The pivot's cell after `fillna(timeout_threshold)`. */
  function SolverTime(records: seq<Record>, s: Setting, solver: string, threshold: int): int {
    match FirstTime(records, s, solver)
    case Some(t) => t
    case None => Limit(threshold)
  }

  /** The distinct settings, in the order they first occur. */
  function Settings(records: seq<Record>): (ss: seq<Setting>)
    ensures Distinct(ss)
    ensures forall s :: s in ss <==> exists i :: 0 <= i < |records| && records[i].setting == s
  {
    if records == [] then []
    else
      var n := |records| - 1;
      var ss := Settings(records[..n]);
      assert forall i :: 0 <= i < n ==> records[..n][i] == records[i];
      if records[n].setting in ss then ss else ss + [records[n].setting]
  }

  /** The `decbs_timeout` and `ecbs_timeout` columns: a time at or above the threshold is a timeout. */
  function Flagged(s: Setting, timeDecbs: int, timeEcbs: int, threshold: int): (r: PivotRow)
    ensures r.decbsTimeout <==> timeDecbs >= Limit(threshold)
    ensures r.ecbsTimeout <==> timeEcbs >= Limit(threshold)
  {
    PivotRow(s, timeDecbs, timeEcbs, timeDecbs >= Limit(threshold), timeEcbs >= Limit(threshold))
  }

  /** `pivot` on the grouped table, with missing times filled in and both solver columns named. */
  function Pivot(records: seq<Record>, threshold: int): (rows: seq<PivotRow>)
    ensures |rows| == |Settings(records)|
  {
    var ss := Settings(records);
    seq(|ss|, i requires 0 <= i < |ss| => Flagged(ss[i], SolverTime(records, ss[i], "decbs", threshold),
                                                   SolverTime(records, ss[i], "ecbs", threshold), threshold))
  }

  /** The pivot table has a column for `solver` exactly when it has some row. */
  predicate HasSolver(records: seq<Record>, solver: string) {
    exists i :: 0 <= i < |records| && records[i].solver == solver
  }

  /** A solver with no numeric time for a setting is charged the threshold, and so counts as timed out. */
  lemma MissingSolverTimesOut(records: seq<Record>, threshold: int, i: nat, solver: string)
    requires i < |Pivot(records, threshold)| && (solver == "decbs" || solver == "ecbs")
    requires forall k :: 0 <= k < |records| && Matches(records[k], Pivot(records, threshold)[i].setting, solver) ==>
               records[k].timeUs.None?
    ensures var row := Pivot(records, threshold)[i];
      (if solver == "decbs" then row.timeDecbs else row.timeEcbs) == Limit(threshold)
      && (if solver == "decbs" then row.decbsTimeout else row.ecbsTimeout)
  {
    var row := Pivot(records, threshold)[i];
    assert FirstTime(records, row.setting, solver).None?;
  }

  // ---------------------------------------------------------------------------
  // Cases and configurations
  // ---------------------------------------------------------------------------

  /** Case 0 has no optimisation, case 1 only bypassing, case 2 bypassing and target reasoning. */
  predicate InCase(r: PivotRow, c: nat) {
    !r.setting.pc
    && (if c == 0 then !r.setting.bc && !r.setting.tr
        else if c == 1 then r.setting.bc && !r.setting.tr
        else if c == 2 then r.setting.bc && r.setting.tr
        else false)
  }

  function CaseRows(rows: seq<PivotRow>, c: nat): (cs: seq<PivotRow>)
    ensures |cs| <= |rows| && forall i :: 0 <= i < |cs| ==> InCase(cs[i], c)
  {
    if rows == [] then []
    else
      var n := |rows| - 1;
      CaseRows(rows[..n], c) + (if InCase(rows[n], c) then [rows[n]] else [])
  }

  /** One value of a configuration column. */
  datatype Val = VStr(s: string) | VInt(i: int) | VReal(x: real)

  /** A pivot row's configuration: map, scenario, agent count and low-level bound. */
  function Key(r: PivotRow): (k: seq<Val>)
    ensures |k| == 4
  {
    [VStr(r.setting.mapPath), VStr(r.setting.yamlPath), VInt(r.setting.numAgents), VReal(r.setting.lowSub)]
  }

  predicate Distinct<T(==)>(s: seq<T>) {
    forall i, j :: 0 <= i < j < |s| ==> s[i] != s[j]
  }

  /** `unique()`: the distinct values, in the order they first occur. */
  function Unique(vs: seq<Val>): (u: seq<Val>)
    ensures Distinct(u)
    ensures forall v :: v in u <==> v in vs
  {
    if vs == [] then []
    else
      var n := |vs| - 1;
      var u := Unique(vs[..n]);
      assert forall v :: v in vs <==> v in vs[..n] || v == vs[n];
      if vs[n] in u then u else u + [vs[n]]
  }

  function Column(rows: seq<PivotRow>, d: nat): (vs: seq<Val>)
    requires d < 4
    ensures |vs| == |rows| && forall i :: 0 <= i < |rows| ==> vs[i] == Key(rows[i])[d]
  {
    seq(|rows|, i requires 0 <= i < |rows| => Key(rows[i])[d])
  }

  /** The value lists the nested loops run over, from column `d` on (`sorted(...unique())`, unsorted). */
  function DimsFrom(rows: seq<PivotRow>, d: nat): (ds: seq<seq<Val>>)
    requires d <= 4
    ensures |ds| == 4 - d && forall e :: 0 <= e < |ds| ==> ds[e] == Unique(Column(rows, d + e))
    decreases 4 - d
  {
    if d == 4 then []
    else
      var rest := DimsFrom(rows, d + 1);
      var ds := [Unique(Column(rows, d))] + rest;
      assert forall e :: 0 < e < |ds| ==> ds[e] == rest[e - 1];
      ds
  }

  /** The four value lists: maps, scenarios, agent counts and low-level bounds. */
  function Dims(rows: seq<PivotRow>): (ds: seq<seq<Val>>)
    ensures |ds| == 4 && forall d :: 0 <= d < 4 ==> Distinct(ds[d]) && ds[d] == Unique(Column(rows, d))
  {
    DimsFrom(rows, 0)
  }

  /** Each tail, with `v` in front. */
  function PrefixAll(v: Val, tails: seq<seq<Val>>): (r: seq<seq<Val>>)
    ensures |r| == |tails| && forall i :: 0 <= i < |tails| ==> r[i] == [v] + tails[i]
  {
    seq(|tails|, i requires 0 <= i < |tails| => [v] + tails[i])
  }

  function Prepend(vs: seq<Val>, tails: seq<seq<Val>>): seq<seq<Val>> {
    if vs == [] then [] else PrefixAll(vs[0], tails) + Prepend(vs[1..], tails)
  }

  /** The combinations the nested `for` loops visit, the first list outermost. */
  function Product(dims: seq<seq<Val>>): seq<seq<Val>> {
    if dims == [] then [[]] else Prepend(dims[0], Product(dims[1..]))
  }

  predicate Within(c: seq<Val>, dims: seq<seq<Val>>) {
    |c| == |dims| && forall d :: 0 <= d < |dims| ==> c[d] in dims[d]
  }

  lemma {:induction false} PrependMember(vs: seq<Val>, tails: seq<seq<Val>>, c: seq<Val>)
    ensures c in Prepend(vs, tails) <==> |c| > 0 && c[0] in vs && c[1..] in tails
  {
    if vs != [] {
      PrependMember(vs[1..], tails, c);
      if |c| > 0 && c[1..] in tails && c[0] == vs[0] {
        var i :| 0 <= i < |tails| && tails[i] == c[1..];
        assert PrefixAll(vs[0], tails)[i] == c;
      }
      if c in PrefixAll(vs[0], tails) {
        var i :| 0 <= i < |tails| && PrefixAll(vs[0], tails)[i] == c;
        assert c[1..] == tails[i];
      }
    }
  }

  /** A combination is visited exactly when each of its values is in its list. */
  lemma {:induction false} ProductMember(dims: seq<seq<Val>>, c: seq<Val>)
    ensures c in Product(dims) <==> Within(c, dims)
  {
    if dims != [] {
      PrependMember(dims[0], Product(dims[1..]), c);
      if |c| > 0 {
        ProductMember(dims[1..], c[1..]);
        if Within(c, dims) {
          assert Within(c[1..], dims[1..]) by {
            forall d | 0 <= d < |dims[1..]| ensures c[1..][d] in dims[1..][d] {
              assert c[d + 1] in dims[d + 1];
            }
          }
        }
        if Within(c[1..], dims[1..]) && c[0] in dims[0] {
          forall d | 0 <= d < |dims| ensures c[d] in dims[d] {
            if d > 0 {
              assert c[1..][d - 1] in dims[1..][d - 1];
            }
          }
        }
      }
    }
  }

  predicate AllDistinct(dims: seq<seq<Val>>) {
    forall d :: 0 <= d < |dims| ==> Distinct(dims[d])
  }

  lemma {:induction false} PrependDistinct(vs: seq<Val>, tails: seq<seq<Val>>)
    requires Distinct(vs) && Distinct(tails)
    ensures Distinct(Prepend(vs, tails))
  {
    if vs != [] {
      var head := PrefixAll(vs[0], tails);
      var rest := Prepend(vs[1..], tails);
      PrependDistinct(vs[1..], tails);
      var all := head + rest;
      forall i, j | 0 <= i < j < |all| ensures all[i] != all[j] {
        if j < |head| {
          assert all[i] == [vs[0]] + tails[i] && all[j] == [vs[0]] + tails[j];
          assert all[i][1..] == tails[i] && all[j][1..] == tails[j];
        } else if i >= |head| {
          assert all[i] == rest[i - |head|] && all[j] == rest[j - |head|];
        } else {
          assert all[j] in rest;
          PrependMember(vs[1..], tails, all[j]);
          assert all[i][0] == vs[0];
          assert vs[0] !in vs[1..];
        }
      }
    }
  }

  /** No combination is visited twice. */
  lemma {:induction false} ProductDistinct(dims: seq<seq<Val>>)
    requires AllDistinct(dims)
    ensures Distinct(Product(dims))
  {
    if dims != [] {
      assert AllDistinct(dims[1..]) by {
        forall d | 0 <= d < |dims[1..]| ensures Distinct(dims[1..][d]) {
          assert dims[1..][d] == dims[d + 1];
        }
      }
      ProductDistinct(dims[1..]);
      PrependDistinct(dims[0], Product(dims[1..]));
    }
  }

  /** `case_df[config_filter]`: the rows of one configuration, in table order. */
  function ConfigRows(rows: seq<PivotRow>, k: seq<Val>): (cs: seq<PivotRow>)
  {
    if rows == [] then []
    else
      var n := |rows| - 1;
      ConfigRows(rows[..n], k) + (if Key(rows[n]) == k then [rows[n]] else [])
  }

  // ---------------------------------------------------------------------------
  // The tally
  // ---------------------------------------------------------------------------

  /** The running totals; `configs` is the length of `unique_combinations`. */
  datatype Tally = Tally(configs: int, expected: int, actual: int, missing: int,
                         onlyEcbs: int, onlyDecbs: int, both: int, neither: int,
                         decbsFaster: int, ecbsFaster: int, equal: int)

  const Zero := Tally(0, 0, 0, 0, 0, 0, 0, 0, 0, 0, 0)

  function Add(a: Tally, b: Tally): Tally {
    Tally(a.configs + b.configs, a.expected + b.expected, a.actual + b.actual, a.missing + b.missing,
          a.onlyEcbs + b.onlyEcbs, a.onlyDecbs + b.onlyDecbs, a.both + b.both, a.neither + b.neither,
          a.decbsFaster + b.decbsFaster, a.ecbsFaster + b.ecbsFaster, a.equal + b.equal)
  }

  /**
   * One run's share of the `sum(...)` counts: its timeout class and, when neither
   * solver timed out, which one was faster.
   */
  function RowTally(r: PivotRow): (t: Tally)
    ensures Balanced(t) && t.configs == 0 && t.expected == 0 && t.actual == 1 && t.missing == 0
  {
    var e := r.ecbsTimeout;
    var d := r.decbsTimeout;
    var neither := !e && !d;
    Tally(0, 0, 1, 0,
          if e && !d then 1 else 0, if !e && d then 1 else 0, if e && d then 1 else 0, if neither then 1 else 0,
          if neither && r.timeDecbs < r.timeEcbs then 1 else 0,
          if neither && r.timeEcbs < r.timeDecbs then 1 else 0,
          if neither && r.timeDecbs == r.timeEcbs then 1 else 0)
  }

  /**
   * The counts over a configuration's rows. The comparisons are summed over the rows
   * where both finished, which is what `both_no_to_df` selects; when there are none
   * they are zero, as the `if both_no_to > 0` guard leaves them.
   */
  function Counts(rows: seq<PivotRow>): (t: Tally)
    ensures Balanced(t) && t.configs == 0 && t.expected == 0 && t.actual == |rows| && t.missing == 0
  {
    if rows == [] then Zero
    else
      var n := |rows| - 1;
      var before := Counts(rows[..n]);
      var last := RowTally(rows[n]);
      AddBalanced(before, last);
      Add(before, last)
  }

  /**
   * The contribution of one configuration that has records: each run is in exactly one
   * timeout class, each run where both finished in exactly one comparison class, and
   * the missing runs make up the expected 200.
   */
  function ConfigTally(rows: seq<PivotRow>): (t: Tally)
    ensures Balanced(t) && t.configs == 1 && t.actual == |rows|
    ensures t.missing == (if |rows| < 200 then 200 - |rows| else 0)
  {
    var actual := |rows|;
    Counts(rows).(configs := 1, expected := ExpectedSeeds,
                             missing := if actual < ExpectedSeeds then ExpectedSeeds - actual else 0)
  }

  /** The configuration `k` of a case adds its tally only when it has records. */
  function Step(rows: seq<PivotRow>, k: seq<Val>): (t: Tally)
    ensures Balanced(t) && t.actual == |ConfigRows(rows, k)|
  {
    var cs := ConfigRows(rows, k);
    if |cs| > 0 then ConfigTally(cs) else Zero
  }

  /** The sum of the tallies of configurations `configs`, in order. */
  function TallyOver(configs: seq<seq<Val>>, rows: seq<PivotRow>): Tally {
    if configs == [] then Zero
    else Add(TallyOver(configs[..|configs| - 1], rows), Step(rows, configs[|configs| - 1]))
  }

  lemma {:induction false} TallyOverBalanced(configs: seq<seq<Val>>, rows: seq<PivotRow>)
    ensures Balanced(TallyOver(configs, rows))
  {
    if configs != [] {
      var n := |configs| - 1;
      TallyOverBalanced(configs[..n], rows);
      AddBalanced(TallyOver(configs[..n], rows), Step(rows, configs[n]));
    }
  }

  lemma TallyOverSnoc(configs: seq<seq<Val>>, j: nat, rows: seq<PivotRow>)
    requires j < |configs|
    ensures TallyOver(configs[..j + 1], rows)
         == Add(TallyOver(configs[..j], rows), Step(rows, configs[j]))
  {
    var pre := configs[..j + 1];
    assert pre[..j] == configs[..j] && pre[j] == configs[j];
  }

  /** One case's tally; a case without rows is skipped. */
  function CaseTally(rows: seq<PivotRow>): Tally {
    if |rows| == 0 then Zero else TallyOver(Product(Dims(rows)), rows)
  }

  /** A case's tally keeps the counters' relations and counts each of its rows once. */
  lemma CaseTallyBalanced(rows: seq<PivotRow>)
    ensures Balanced(CaseTally(rows)) && CaseTally(rows).actual == |rows|
  {
    if |rows| > 0 {
      CaseTallyCountsRows(rows);
      TallyOverBalanced(Product(Dims(rows)), rows);
    }
  }

  /** `df_pivot[condition]` for each of the three `case_conditions`, in order. */
  function Cases(pivot: seq<PivotRow>): (cases: seq<seq<PivotRow>>)
    ensures |cases| == 3 && forall c :: 0 <= c < 3 ==> cases[c] == CaseRows(pivot, c)
  {
    [CaseRows(pivot, 0), CaseRows(pivot, 1), CaseRows(pivot, 2)]
  }

  /** The sum of the case tallies, in order. */
  function SumCases(cases: seq<seq<PivotRow>>): Tally {
    if cases == [] then Zero else Add(SumCases(cases[..|cases| - 1]), CaseTally(cases[|cases| - 1]))
  }

  /** The number of rows over all the cases. */
  function RowCount(cases: seq<seq<PivotRow>>): nat {
    if cases == [] then 0 else RowCount(cases[..|cases| - 1]) + |cases[|cases| - 1]|
  }

  /** The totals keep the counters' relations and count exactly the rows of the cases. */
  lemma {:induction false} SumCasesBalanced(cases: seq<seq<PivotRow>>)
    ensures Balanced(SumCases(cases)) && SumCases(cases).actual == RowCount(cases)
  {
    if cases != [] {
      var n := |cases| - 1;
      var before, last := SumCases(cases[..n]), CaseTally(cases[n]);
      assert Balanced(before) && before.actual == RowCount(cases[..n]) by {
        SumCasesBalanced(cases[..n]);
      }
      assert Balanced(last) && last.actual == |cases[n]| by {
        CaseTallyBalanced(cases[n]);
      }
      AddBalanced(before, last);
      assert SumCases(cases) == Add(before, last);
      assert RowCount(cases) == RowCount(cases[..n]) + |cases[n]|;
      assert Add(before, last).actual == before.actual + last.actual;
    }
  }

  lemma SumCasesSnoc(cases: seq<seq<PivotRow>>, j: nat)
    requires j < |cases|
    ensures SumCases(cases[..j + 1]) == Add(SumCases(cases[..j]), CaseTally(cases[j]))
  {
    var pre := cases[..j + 1];
    assert pre[..j] == cases[..j] && pre[j] == cases[j];
  }

  lemma SumCasesAll(cases: seq<seq<PivotRow>>)
    ensures SumCases(cases[..|cases|]) == SumCases(cases)
  {
    assert cases[..|cases|] == cases;
  }

  /** The dictionary `analyze_timeouts_total` returns. */
  datatype Summary = Summary(totalTestCases: int, expectedTotal: int, onlyEcbsTimeout: int,
                             onlyDecbsTimeout: int, bothTimeout: int, bothNoTimeout: int,
                             missingCases: int, adjustedBothTimeout: int, adjustedTotal: int,
                             decbsFasterCount: int, ecbsFasterCount: int, equalPerformanceCount: int)

  function Finish(t: Tally): Summary {
    Summary(t.actual, t.expected, t.onlyEcbs, t.onlyDecbs, t.both, t.neither, t.missing,
            t.both + t.missing, t.actual + t.missing, t.decbsFaster, t.ecbsFaster, t.equal)
  }

  /** Tallies one case's configurations, skipping those without records. */
  method TallyCase(rows: seq<PivotRow>) returns (t: Tally)
    ensures t == CaseTally(rows)
  {
    if |rows| == 0 {
      return Zero;
    }
    t := TallyConfigs(Product(Dims(rows)), rows);
  }

  /** The nested loops over the unique values, flattened to their list of configurations. */
  method TallyConfigs(configs: seq<seq<Val>>, rows: seq<PivotRow>) returns (t: Tally)
    ensures t == TallyOver(configs, rows)
  {
    t := Zero;
    var j := 0;
    while j < |configs|
      invariant j <= |configs|
      invariant t == TallyOver(configs[..j], rows)
    {
      TallyOverSnoc(configs, j, rows);
      t := TallyConfig(t, rows, configs[j]);
      j := j + 1;
    }
    TallyOverAll(configs, rows);
  }

  /** The body of the innermost loop: a configuration with records adds its counts. */
  method TallyConfig(t: Tally, rows: seq<PivotRow>, k: seq<Val>) returns (t': Tally)
    ensures t' == Add(t, Step(rows, k))
  {
    var configRows := ConfigRows(rows, k);
    if |configRows| > 0 {
      t' := Add(t, ConfigTally(configRows));
    } else {
      AddZero(t);
      t' := t;
    }
  }

  lemma AddZero(t: Tally)
    ensures Add(t, Zero) == t
  {
  }

  lemma TallyOverAll(configs: seq<seq<Val>>, rows: seq<PivotRow>)
    ensures TallyOver(configs[..|configs|], rows) == TallyOver(configs, rows)
  {
    assert configs[..|configs|] == configs;
  }

  /**
   * `analyze_timeouts_total`: `None` when no row was loaded, a `KeyError` when the pivot
   * table lacks a solver's column, and otherwise the totals over the three cases.
   */
  method AnalyzeTimeoutsTotal(records: seq<Record>, threshold: int) returns (r: Result<Option<Summary>, Raised>)
    ensures records == [] ==> r == Ok(None)
    ensures records != [] && !HasSolver(records, "decbs") ==> r == Err(KeyError("time_decbs"))
    ensures records != [] && HasSolver(records, "decbs") && !HasSolver(records, "ecbs") ==> r == Err(KeyError("time_ecbs"))
    ensures records != [] && HasSolver(records, "decbs") && HasSolver(records, "ecbs") ==>
      r == Ok(Some(Finish(SumCases(Cases(Pivot(records, threshold))))))
  {
    if records == [] {
      return Ok(None);
    }
    var pivot := Pivot(records, threshold);
    if !HasSolver(records, "decbs") {
      return Err(KeyError("time_decbs"));
    }
    if !HasSolver(records, "ecbs") {
      return Err(KeyError("time_ecbs"));
    }
    var total := TallyCases(Cases(pivot));
    return Ok(Some(Finish(total)));
  }

  /** The loop over the three optimisation cases. */
  method TallyCases(cases: seq<seq<PivotRow>>) returns (total: Tally)
    ensures total == SumCases(cases)
  {
    total := Zero;
    for idx := 0 to |cases|
      invariant total == SumCases(cases[..idx])
    {
      SumCasesSnoc(cases, idx);
      var caseTotal := TallyCase(cases[idx]);
      total := Add(total, caseTotal);
    }
    SumCasesAll(cases);
  }

  // ---------------------------------------------------------------------------
  // Properties of the tally
  // ---------------------------------------------------------------------------

  /**
   * The relations the counters keep: timeouts split the found runs four ways, the
   * comparisons split the runs where both finished three ways, and every counted
   * configuration expects 200 runs.
   */
  predicate Balanced(t: Tally) {
    t.onlyEcbs + t.onlyDecbs + t.both + t.neither == t.actual
    && t.decbsFaster + t.ecbsFaster + t.equal == t.neither
    && t.expected == 200 * t.configs
  }

  lemma AddBalanced(a: Tally, b: Tally)
    requires Balanced(a) && Balanced(b)
    ensures Balanced(Add(a, b))
  {

  }

  /** The number of occurrences of `k` in `ks`. */
  function Occurrences(ks: seq<seq<Val>>, k: seq<Val>): nat {
    if ks == [] then 0 else Occurrences(ks[..|ks| - 1], k) + (if ks[|ks| - 1] == k then 1 else 0)
  }

  lemma {:induction false} OccursOnce(ks: seq<seq<Val>>, k: seq<Val>)
    requires Distinct(ks) && k in ks
    ensures Occurrences(ks, k) == 1
  {
    var n := |ks| - 1;
    if ks[n] == k {
      OccursNot(ks[..n], k);
    } else {
      assert k in ks[..n];
      OccursOnce(ks[..n], k);
    }
  }

  lemma {:induction false} OccursNot(ks: seq<seq<Val>>, k: seq<Val>)
    requires k !in ks
    ensures Occurrences(ks, k) == 0
  {
    if ks != [] {
      OccursNot(ks[..|ks| - 1], k);
    }
  }

  /** The runs found over configurations `configs`. */
  function FoundOver(configs: seq<seq<Val>>, rows: seq<PivotRow>): nat {
    if configs == [] then 0
    else FoundOver(configs[..|configs| - 1], rows) + |ConfigRows(rows, configs[|configs| - 1])|
  }

  lemma {:induction false} TallyOverActual(configs: seq<seq<Val>>, rows: seq<PivotRow>)
    ensures TallyOver(configs, rows).actual == FoundOver(configs, rows)
  {
    if configs != [] {
      TallyOverActual(configs[..|configs| - 1], rows);
    }
  }

  /** One more row adds one run to the configuration it belongs to, once for each time it is listed. */
  lemma {:induction false} FoundOverSnoc(configs: seq<seq<Val>>, rows: seq<PivotRow>, r: PivotRow)
    ensures FoundOver(configs, rows + [r]) == FoundOver(configs, rows) + Occurrences(configs, Key(r))
  {
    if configs != [] {
      var n := |configs| - 1;
      FoundOverSnoc(configs[..n], rows, r);
      assert (rows + [r])[..|rows|] == rows;
    }
  }

  /** Configurations listed once each, covering every row's, find every row once. */
  lemma {:induction false} FoundOverCovers(configs: seq<seq<Val>>, rows: seq<PivotRow>)
    requires Distinct(configs)
    requires forall i :: 0 <= i < |rows| ==> Key(rows[i]) in configs
    ensures FoundOver(configs, rows) == |rows|
  {
    if rows == [] {
      FoundOverEmpty(configs);
    } else {
      var n := |rows| - 1;
      assert rows == rows[..n] + [rows[n]];
      FoundOverCovers(configs, rows[..n]);
      FoundOverSnoc(configs, rows[..n], rows[n]);
      OccursOnce(configs, Key(rows[n]));
    }
  }

  lemma {:induction false} FoundOverEmpty(configs: seq<seq<Val>>)
    ensures FoundOver(configs, []) == 0
  {
    if configs != [] {
      FoundOverEmpty(configs[..|configs| - 1]);
    }
  }

  /** Every row of a case is counted in exactly one configuration of the nested loops. */
  lemma CaseTallyCountsRows(rows: seq<PivotRow>)
    requires |rows| > 0
    ensures TallyOver(Product(Dims(rows)), rows).actual == |rows|
  {
    var dims := Dims(rows);
    ProductDistinct(dims);
    forall i | 0 <= i < |rows| ensures Key(rows[i]) in Product(dims) {
      KeyWithin(rows, i);
      ProductMember(dims, Key(rows[i]));
    }
    FoundOverCovers(Product(dims), rows);
    TallyOverActual(Product(dims), rows);
  }

  lemma KeyWithin(rows: seq<PivotRow>, i: nat)
    requires i < |rows|
    ensures Within(Key(rows[i]), Dims(rows))
  {
    var dims := Dims(rows);
    forall d | 0 <= d < 4 ensures Key(rows[i])[d] in dims[d] {
      assert Column(rows, d)[i] == Key(rows[i])[d];
      assert Key(rows[i])[d] in Column(rows, d);
    }
  }

  /**
   * The summary's counts: the four timeout classes add up to the runs found, which are
   * exactly the pivot rows of the three cases; the comparisons add up to the runs where
   * both finished; missing runs are added to "both timed out" and to the total.
   */
  lemma SummaryBalanced(pivot: seq<PivotRow>)
    ensures var s := Finish(SumCases(Cases(pivot)));
      s.onlyEcbsTimeout + s.onlyDecbsTimeout + s.bothTimeout + s.bothNoTimeout == s.totalTestCases
      && s.totalTestCases == |CaseRows(pivot, 0)| + |CaseRows(pivot, 1)| + |CaseRows(pivot, 2)|
      && s.decbsFasterCount + s.ecbsFasterCount + s.equalPerformanceCount == s.bothNoTimeout
      && s.adjustedBothTimeout == s.bothTimeout + s.missingCases
      && s.adjustedTotal == s.totalTestCases + s.missingCases
      && s.expectedTotal % ExpectedSeeds == 0
  {
    var cases := Cases(pivot);
    SumCasesBalanced(cases);
    RowCountThree(cases[0], cases[1], cases[2]);
    assert cases == [cases[0], cases[1], cases[2]];
  }

  lemma RowCountThree(a: seq<PivotRow>, b: seq<PivotRow>, c: seq<PivotRow>)
    ensures RowCount([a, b, c]) == |a| + |b| + |c|
  {
    assert [a, b, c][..2] == [a, b] && [a, b][..1] == [a] && [a][..0] == [];
    assert RowCount([a]) == |a|;
    assert RowCount([a, b]) == |a| + |b|;
  }
}
