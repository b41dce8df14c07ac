/**
 * The experiment runner's pure parts: the Cartesian expansion of the experiment's
 * parameter lists (`generate_combinations`), the command line each run starts
 * (`run_experiment`) and the row a failed run appends to the result table
 * (`write_error_csv`). Processes, files and logging are left out; the outcome of the
 * solver process is an oracle on the command.
 */
module Experiment {
  import opened Wrappers
  import Config

  /** A parameter value as the experiment file's YAML loader produces it. */
  datatype PValue = PInt(i: int) | PBool(b: bool) | PReal(r: real) | PStr(s: string) | PList(items: seq<PValue>)

  /** A dictionary, its entries in insertion order. */
  type Params = seq<(string, PValue)>

  /** What Python raises on the way. */
  datatype Raised = KeyError(key: string) | TypeError | ValueError | UnboundLocal(name: string)

  function Keys(p: Params): (ks: seq<string>)
    ensures |ks| == |p| && forall i :: 0 <= i < |p| ==> ks[i] == p[i].0
  {
    seq(|p|, i requires 0 <= i < |p| => p[i].0)
  }

  /** `params[key]`: the entry's value, or `None` where Python raises a `KeyError`. */
  function Lookup(p: Params, key: string): (v: Option<PValue>)
    ensures v.None? <==> key !in Keys(p)
    ensures v.Some? ==> (key, v.value) in p
  {
    if p == [] then None
    else if p[0].0 == key then Some(p[0].1)
    else
      assert Keys(p) == [p[0].0] + Keys(p[1..]);
      Lookup(p[1..], key)
  }

  /** Python truthiness, as `if params.get(...)` tests it. */
  predicate Truthy(v: PValue) {
    match v
    case PInt(i) => i != 0
    case PBool(b) => b
    case PReal(r) => r != 0.0
    case PStr(s) => |s| > 0
    case PList(items) => |items| > 0
  }

  // ---------------------------------------------------------------------------
  // generate_combinations
  // ---------------------------------------------------------------------------

  /** `list(range(n))`. */
  function Range(n: int): (r: seq<PValue>)
    ensures |r| == (if n < 0 then 0 else n)
    ensures forall k :: 0 <= k < |r| ==> r[k] == PInt(k)
  {
    if n <= 0 then [] else seq(n, k requires 0 <= k < n => PInt(k))
  }

  /**
   * The values one key ranges over: `seed_num` n stands for the seeds 0..n-1 (a boolean
   * counts as 0 or 1, anything else makes `range` raise), a list for its elements, and any
   * other value for itself.
   */
  function ChoicesFor(key: string, v: PValue): Result<seq<PValue>, Raised> {
    if key == "seed_num" then
      match v
      case PInt(n) => Ok(Range(n))
      case PBool(b) => Ok(Range(if b then 1 else 0))
      case _ => Err(TypeError)
    else if v.PList? then Ok(v.items)
    else Ok([v])
  }

  /** The value lists of the keys, in key order; raises at the first key that cannot be expanded. */
  function Choices(p: Params): (r: Result<seq<seq<PValue>>, Raised>)
    ensures r.Ok? ==> |r.value| == |p|
  {
    if p == [] then Ok([])
    else
      match Choices(p[..|p| - 1])
      case Err(e) => Err(e)
      case Ok(values) =>
        match ChoicesFor(p[|p| - 1].0, p[|p| - 1].1)
        case Err(e) => Err(e)
        case Ok(vs) => Ok(values + [vs])
  }

  lemma {:induction false} ChoicesSpec(p: Params)
    ensures Choices(p).Err? <==> exists i :: 0 <= i < |p| && ChoicesFor(p[i].0, p[i].1).Err?
    ensures Choices(p).Ok? ==> forall i :: 0 <= i < |p| ==> Ok(Choices(p).value[i]) == ChoicesFor(p[i].0, p[i].1)
    decreases |p|
  {
    if p != [] {
      var q := p[..|p| - 1];
      ChoicesSpec(q);
      assert forall i :: 0 <= i < |q| ==> q[i] == p[i];
    }
  }

  /** One more key: its value list is appended, or it raises. */
  lemma ChoicesNext(p: Params, i: nat)
    requires i < |p|
    ensures Choices(p[..i + 1]) == match Choices(p[..i])
      case Err(e) => Err(e)
      case Ok(values) =>
        match ChoicesFor(p[i].0, p[i].1)
        case Err(e) => Err(e)
        case Ok(vs) => Ok(values + [vs])
  {
    assert p[..i + 1][..i] == p[..i];
    assert p[..i + 1][i] == p[i];
  }

  /** Once a prefix of the keys raises, the whole expansion raises the same. */
  lemma {:induction false} ChoicesExtend(p: Params, i: nat)
    requires i <= |p| && Choices(p[..i]).Err?
    ensures Choices(p) == Choices(p[..i])
    decreases |p|
  {
    if i == |p| {
      assert p[..i] == p;
    } else {
      var q := p[..|p| - 1];
      assert q[..i] == p[..i];
      ChoicesExtend(q, i);
    }
  }

  /** The sequences `[x] + rest` for each `rest`, in order. */
  function Cons(x: PValue, rests: seq<seq<PValue>>): (r: seq<seq<PValue>>)
    ensures |r| == |rests| && forall k :: 0 <= k < |r| ==> r[k] == [x] + rests[k]
  {
    seq(|rests|, k requires 0 <= k < |rests| => [x] + rests[k])
  }

  /** Each first value followed by each rest: the first value varies slowest. */
  function Prefixed(firsts: seq<PValue>, rests: seq<seq<PValue>>): (r: seq<seq<PValue>>)
    ensures |r| == |firsts| * |rests|
  {
    if firsts == [] then []
    else
      var tail := Prefixed(firsts[1..], rests);
      assert |firsts| * |rests| == |rests| + (|firsts| - 1) * |rests|;
      Cons(firsts[0], rests) + tail
  }

  /** `itertools.product`: every choice of one value per list, in lexicographic order. */
  function Product(values: seq<seq<PValue>>): seq<seq<PValue>>
    decreases |values|
  {
    if values == [] then [[]] else Prefixed(values[0], Product(values[1..]))
  }

  /** The product of the lengths. */
  function Size(values: seq<seq<PValue>>): nat
    decreases |values|
  {
    if values == [] then 1 else |values[0]| * Size(values[1..])
  }

  lemma {:induction false} ProductSize(values: seq<seq<PValue>>)
    ensures |Product(values)| == Size(values)
    decreases |values|
  {
    if values != [] {
      ProductSize(values[1..]);
    }
  }

  lemma {:induction false} PrefixedMember(firsts: seq<PValue>, rests: seq<seq<PValue>>, c: seq<PValue>)
    ensures c in Prefixed(firsts, rests) <==> |c| > 0 && c[0] in firsts && c[1..] in rests
    decreases |firsts|
  {
    if firsts != [] {
      PrefixedMember(firsts[1..], rests, c);
      var head := Cons(firsts[0], rests);
      assert Prefixed(firsts, rests) == head + Prefixed(firsts[1..], rests);
      assert c in head <==> |c| > 0 && c[0] == firsts[0] && c[1..] in rests by {
        if c in head {
          var k :| 0 <= k < |head| && head[k] == c;
          assert c[1..] == rests[k];
        }
        if |c| > 0 && c[0] == firsts[0] && c[1..] in rests {
          var k :| 0 <= k < |rests| && rests[k] == c[1..];
          assert head[k] == c;
        }
      }
      if |c| > 0 {
        assert c[0] in firsts <==> c[0] == firsts[0] || c[0] in firsts[1..] by {
          assert firsts == [firsts[0]] + firsts[1..];
        }
      }
    }
  }

  /** One value per list, drawn from that list. */
  predicate Drawn(c: seq<PValue>, values: seq<seq<PValue>>) {
    |c| == |values| && forall i :: 0 <= i < |c| ==> c[i] in values[i]
  }

  /** The product holds exactly the sequences that draw one value from each list. */
  lemma {:induction false} ProductMember(values: seq<seq<PValue>>, c: seq<PValue>)
    ensures c in Product(values) <==> Drawn(c, values)
    decreases |values|
  {
    if values == [] {
      assert c in Product(values) <==> c == [];
    } else {
      PrefixedMember(values[0], Product(values[1..]), c);
      if |c| > 0 {
        ProductMember(values[1..], c[1..]);
        assert Drawn(c, values) <==> c[0] in values[0] && Drawn(c[1..], values[1..]) by {
          if Drawn(c[1..], values[1..]) && c[0] in values[0] {
            forall i | 0 <= i < |c|
              ensures c[i] in values[i]
            {
              if i > 0 {
                assert c[1..][i - 1] in values[1..][i - 1];
              }
            }
          }
          if Drawn(c, values) {
            forall i | 0 <= i < |c[1..]|
              ensures c[1..][i] in values[1..][i]
            {
              assert c[i + 1] in values[i + 1];
            }
          }
        }
      }
    }
  }

  /** `dict(zip(keys, combination))`. */
  function Zip(keys: seq<string>, c: seq<PValue>): (d: Params)
    requires |keys| == |c|
    ensures |d| == |keys| && forall i :: 0 <= i < |d| ==> d[i] == (keys[i], c[i])
  {
    seq(|keys|, i requires 0 <= i < |keys| => (keys[i], c[i]))
  }

  /** The dictionaries `generate_combinations` yields for a parameter file, in order. */
  function CombinationsOf(p: Params): (r: Result<seq<Params>, Raised>)
    ensures r.Err? <==> Choices(p).Err?
  {
    match Choices(p)
    case Err(e) => Err(e)
    case Ok(values) =>
      var prod := Product(values);
      ProductLengths(values);
      Ok(seq(|prod|, k requires 0 <= k < |prod| => Zip(Keys(p), prod[k])))
  }

  lemma ProductLengths(values: seq<seq<PValue>>)
    ensures forall c :: c in Product(values) ==> |c| == |values|
  {
    forall c | c in Product(values)
      ensures |c| == |values|
    {
      ProductMember(values, c);
    }
  }

  /**
   * `generate_combinations`: collects each key's value list, then yields one dictionary
   * per element of their product; a `seed_num` that is not a number raises.
   */
  method GenerateCombinations(params: Params) returns (r: Result<seq<Params>, Raised>)
    ensures r == CombinationsOf(params)
  {
    var keys := Keys(params);
    var values: seq<seq<PValue>> := [];
    var i := 0;
    while i < |keys|
      invariant i <= |keys| && Choices(params[..i]) == Ok(values)
    {
      ChoicesNext(params, i);
      var key := keys[i];
      var v := params[i].1;
      if key == "seed_num" {
        if v.PInt? {
          values := values + [Range(v.i)];
        } else if v.PBool? {
          values := values + [Range(if v.b then 1 else 0)];
        } else {
          ChoicesExtend(params, i + 1);
          return Err(TypeError);
        }
      } else if v.PList? {
        values := values + [v.items];
      } else {
        values := values + [[v]];
      }
      i := i + 1;
    }
    assert params[..i] == params;
    var prod := Product(values);
    ProductLengths(values);
    var combos := ZipEach(keys, prod);
    return Ok(combos);
  }

  /** The loop over `itertools.product`: one dictionary per combination. */
  method ZipEach(keys: seq<string>, prod: seq<seq<PValue>>) returns (combos: seq<Params>)
    requires forall c :: c in prod ==> |c| == |keys|
    ensures combos == seq(|prod|, k requires 0 <= k < |prod| => Zip(keys, prod[k]))
  {
    combos := [];
    var k := 0;
    while k < |prod|
      invariant k <= |prod| && |combos| == k
      invariant forall j :: 0 <= j < k ==> combos[j] == Zip(keys, prod[j])
    {
      combos := combos + [Zip(keys, prod[k])];
      k := k + 1;
    }
  }

  /** There are as many runs as the product of the value lists' lengths. */
  lemma CombinationsCount(p: Params)
    requires Choices(p).Ok?
    ensures |CombinationsOf(p).value| == Size(Choices(p).value)
  {
    ProductSize(Choices(p).value);
  }

  /**
   * A dictionary is yielded exactly when it has the file's keys, in order, and gives each key
   * one of its values: a seed below `seed_num`, an element of a list, or the fixed scalar.
   */
  lemma CombinationsMember(p: Params, d: Params)
    requires Choices(p).Ok?
    ensures d in CombinationsOf(p).value <==> (|d| == |p| && Keys(d) == Keys(p) &&
      forall i :: 0 <= i < |p| ==> ChoicesFor(p[i].0, p[i].1).Ok? && d[i].1 in ChoicesFor(p[i].0, p[i].1).value)
  {
    if d in CombinationsOf(p).value {
      CombinationYielded(p, d);
    }
    if |d| == |p| && Keys(d) == Keys(p) && forall i :: 0 <= i < |p| ==> ChoicesFor(p[i].0, p[i].1).Ok? && d[i].1 in ChoicesFor(p[i].0, p[i].1).value {
      CombinationDrawn(p, d);
    }
  }

  /** The values of a dictionary, in order. */
  function ValuesOf(d: Params): (c: seq<PValue>)
    ensures |c| == |d| && forall i :: 0 <= i < |d| ==> c[i] == d[i].1
  {
    seq(|d|, i requires 0 <= i < |d| => d[i].1)
  }

  lemma CombinationYielded(p: Params, d: Params)
    requires Choices(p).Ok? && d in CombinationsOf(p).value
    ensures |d| == |p| && Keys(d) == Keys(p)
    ensures forall i :: 0 <= i < |p| ==> ChoicesFor(p[i].0, p[i].1).Ok? && d[i].1 in ChoicesFor(p[i].0, p[i].1).value
  {
    var values := Choices(p).value;
    var combos := CombinationsOf(p).value;
    var prod := Product(values);
    ChoicesSpec(p);
    var k :| 0 <= k < |combos| && combos[k] == d;
    assert prod[k] in prod;
    ProductMember(values, prod[k]);
    assert ValuesOf(d) == prod[k];
  }

  lemma CombinationDrawn(p: Params, d: Params)
    requires Choices(p).Ok? && |d| == |p| && Keys(d) == Keys(p)
    requires forall i :: 0 <= i < |p| ==> ChoicesFor(p[i].0, p[i].1).Ok? && d[i].1 in ChoicesFor(p[i].0, p[i].1).value
    ensures d in CombinationsOf(p).value
  {
    var values := Choices(p).value;
    var combos := CombinationsOf(p).value;
    var prod := Product(values);
    ChoicesSpec(p);
    var c := ValuesOf(d);
    ProductMember(values, c);
    assert Drawn(c, values);
    var k :| 0 <= k < |prod| && prod[k] == c;
    assert combos[k] == d;
  }

  /** `seed_num` n makes the seeds 0..n-1. */
  lemma SeedRange(n: int, v: PValue)
    requires n >= 0
    ensures v in ChoicesFor("seed_num", PInt(n)).value <==> v.PInt? && 0 <= v.i < n
  {
    var r := Range(n);
    if v in r {
      var k :| 0 <= k < |r| && r[k] == v;
    }
    if v.PInt? && 0 <= v.i < n {
      assert r[v.i] == v;
    }
  }

  // ---------------------------------------------------------------------------
  // run_experiment: the command
  // ---------------------------------------------------------------------------

  /**
   * A command-line argument or a table cell: literal text, `str(v)` of a parameter value, or
   * `str(math.sqrt(v))`. The text Python renders numbers and lists to is left uninterpreted.
   */
  datatype Text = Lit(s: string) | Str(v: PValue) | SqrtStr(v: PValue)

  /** One run's parameters: `dict(zip(keys, combination))`, a later duplicate key overriding an earlier one. */
  type Dict = map<string, PValue>

  function AsDict(p: Params): Dict
    decreases |p|
  {
    if p == [] then map[] else AsDict(p[..|p| - 1])[p[|p| - 1].0 := p[|p| - 1].1]
  }

  /** `params.get(key)`. */
  function Get(p: Dict, key: string): (v: Option<PValue>)
    ensures v.Some? <==> key in p
    ensures v.Some? ==> v.value == p[key]
  {
    if key in p then Some(p[key]) else None
  }

  /** The solvers given only a low-level bound, as the runner lists them (acbs is not among them). */
  const LowLevelOnlyAsWritten: seq<PValue> := [PStr("lbcbs"), PStr("ecbs"), PStr("decbs")]

  /** The same list with acbs, which `Config::validate` also requires a low-level bound of. */
  const LowLevelOnly: seq<PValue> := [PStr("lbcbs"), PStr("ecbs"), PStr("decbs"), PStr("acbs")]

  /**
   * `str(math.sqrt(v))`: a negative number raises `ValueError` and anything that is not a
   * number `TypeError` (a boolean counts as the integer 0 or 1).
   */
  function Sqrt(v: PValue): (r: Result<Text, Raised>)
    ensures r.Ok? <==> (v.PInt? && v.i >= 0) || v.PBool? || (v.PReal? && v.r >= 0.0)
    ensures r.Ok? ==> r.value == SqrtStr(v)
    ensures r.Err? ==> r.error == (if v.PStr? || v.PList? then TypeError else ValueError)
  {
    match v
    case PInt(i) => if i < 0 then Err(ValueError) else Ok(SqrtStr(v))
    case PBool(_) => Ok(SqrtStr(v))
    case PReal(x) => if x < 0.0 then Err(ValueError) else Ok(SqrtStr(v))
    case _ => Err(TypeError)
  }

  /** The solvers that read `sub_optimal`, given the list of low-level-only solvers. */
  predicate TakesBound(lowOnly: seq<PValue>, solver: PValue) {
    solver in lowOnly || solver == PStr("hbcbs") || solver == PStr("bcbs")
  }

  /**
   * The suboptimality arguments for `solver`, given the list of low-level-only solvers.
   * A solver that takes a bound raises when `sub_optimal` is absent, and bcbs also when
   * `math.sqrt` rejects the bound.
   */
  function BoundArgs(lowOnly: seq<PValue>, solver: PValue, sub: Option<PValue>): (r: Result<seq<Text>, Raised>)
    ensures sub.None? ==> (r.Err? <==> TakesBound(lowOnly, solver))
    ensures sub.None? && r.Err? ==> r.error == KeyError("sub_optimal")
    ensures sub.Some? ==> (r.Err? <==> solver !in lowOnly && solver == PStr("bcbs") && Sqrt(sub.value).Err?)
    ensures sub.Some? && r.Err? ==> r.error == Sqrt(sub.value).error
    ensures r.Ok? && !TakesBound(lowOnly, solver) ==> r.value == []
  {
    if solver in lowOnly then
      if sub.None? then Err(KeyError("sub_optimal")) else Ok([Lit("--low-level-sub-optimal"), Str(sub.value)])
    else if solver == PStr("hbcbs") then
      if sub.None? then Err(KeyError("sub_optimal")) else Ok([Lit("--high-level-sub-optimal"), Str(sub.value)])
    else if solver == PStr("bcbs") then
      if sub.None? then Err(KeyError("sub_optimal"))
      else match Sqrt(sub.value)
        case Err(e) => Err(e)
        case Ok(t) => Ok([Lit("--low-level-sub-optimal"), t, Lit("--high-level-sub-optimal"), t])
    else Ok([])
  }

  /** `[flag]` when `params.get(key, False)` is truthy. */
  function Switch(p: Dict, key: string, flag: string): (s: seq<Text>)
    ensures s == [Lit(flag)] <==> key in p && Truthy(p[key])
    ensures s != [Lit(flag)] ==> s == []
  {
    if key in p && Truthy(p[key]) then [Lit(flag)] else []
  }

  const PrioritizeFlag := "--op-prioritize-conflicts"
  const BypassFlag := "--op-bypass-conflicts"
  const TargetFlag := "--op-target-reasoning"

  /** The switches of the three options, in this order. */
  function OpArgs(p: Dict): (args: seq<Text>)
    ensures |args| <= 3
  {
    Switch(p, "op_prioritize_conflicts", PrioritizeFlag)
    + Switch(p, "op_bypass_conflicts", BypassFlag)
    + Switch(p, "op_target_reasoning", TargetFlag)
  }

  /** Each option's switch is on the command exactly when its parameter is present and truthy (absent counts as false). */
  lemma OpArgsSpec(p: Dict)
    ensures Lit(PrioritizeFlag) in OpArgs(p) <==> "op_prioritize_conflicts" in p && Truthy(p["op_prioritize_conflicts"])
    ensures Lit(BypassFlag) in OpArgs(p) <==> "op_bypass_conflicts" in p && Truthy(p["op_bypass_conflicts"])
    ensures Lit(TargetFlag) in OpArgs(p) <==> "op_target_reasoning" in p && Truthy(p["op_target_reasoning"])
  {
    var a := Switch(p, "op_prioritize_conflicts", PrioritizeFlag);
    var b := Switch(p, "op_bypass_conflicts", BypassFlag);
    var c := Switch(p, "op_target_reasoning", TargetFlag);
    assert OpArgs(p) == a + b + c;
    assert PrioritizeFlag[5] == 'p' && BypassFlag[5] == 'b' && TargetFlag[5] == 't';
  }

  /** `str(params[key])` for each of `keys`, in order; the first missing key raises. */
  function Cells(p: Dict, keys: seq<string>): (r: Result<seq<Text>, Raised>)
    ensures r.Ok? <==> forall i :: 0 <= i < |keys| ==> keys[i] in p
    ensures r.Ok? ==> |r.value| == |keys| && forall i :: 0 <= i < |keys| ==> r.value[i] == Str(p[keys[i]])
    ensures r.Err? ==> r.error.KeyError?
  {
    if keys == [] then Ok([])
    else
      if keys[0] !in p then Err(KeyError(keys[0]))
      else
        var t := Cells(p, keys[1..]);
        if t.Err? then t else Ok([Str(p[keys[0]])] + t.value)
  }

  /** The key `Cells` raises for is the first of `keys` missing from the dictionary. */
  lemma {:induction false} CellsFirstMissing(p: Dict, keys: seq<string>, i: nat)
    requires i < |keys| && keys[i] !in p && forall j :: 0 <= j < i ==> keys[j] in p
    ensures Cells(p, keys) == Err(KeyError(keys[i]))
    decreases i
  {
    if i > 0 {
      CellsFirstMissing(p, keys[1..], i - 1);
    }
  }

  /** The keys the base command reads, in the order it reads them. */
  const CommandKeys: seq<string> := ["yaml_path", "map_path", "num_agents", "seed_num", "solver"]

  /** The program, then each base flag followed by its value. */
  function BaseCommand(vs: seq<Text>): (cmd: seq<Text>)
    requires |vs| == 5
    ensures |cmd| == 14 && cmd[13] == vs[4]
  {
    [Lit("cargo"), Lit("run"), Lit("--release"), Lit("--"), Lit("--yaml-path"), vs[0], Lit("--map-path"), vs[1],
     Lit("--num-agents"), vs[2], Lit("--seed"), vs[3], Lit("--solver"), vs[4]]
  }

  /** A run: the command it starts, and the row written to the result table, if any. */
  datatype Run = Run(cmd: seq<Text>, row: Option<seq<Text>>)

  /** How the solver process ended. */
  datatype ProcessOutcome = Completed | TimedOut | NonZeroExit | OtherFailure

  /** The row the process outcome makes `run_experiment` write: a row for a timeout or a failure, none otherwise. */
  function OutcomeRow(lowOnly: seq<PValue>, p: Dict, o: ProcessOutcome): (r: Result<Option<seq<Text>>, Raised>)
    ensures o.Completed? || o.OtherFailure? ==> r == Ok(None)
    ensures o.TimedOut? ==> r == RowOf(ErrorRow(lowOnly, p, "timeout"))
    ensures o.NonZeroExit? ==> r == RowOf(ErrorRow(lowOnly, p, "solvefailure"))
  {
    match o
    case TimedOut => RowOf(ErrorRow(lowOnly, p, "timeout"))
    case NonZeroExit => RowOf(ErrorRow(lowOnly, p, "solvefailure"))
    case _ => Ok(None)
  }

  function RowOf(e: Result<seq<Text>, Raised>): Result<Option<seq<Text>>, Raised> {
    if e.Ok? then Ok(Some(e.value)) else Err(e.error)
  }

  /**
   * `run_experiment` for a given list of low-level-only solvers: reads `time_out`, builds the
   * command (base arguments, then the suboptimality arguments, then the option switches),
   * runs it, and writes a `timeout` or `solvefailure` row when the process times out or
   * fails. Other failures are only logged.
   */
  method RunWith(lowOnly: seq<PValue>, p: Dict, run: seq<Text> -> ProcessOutcome) returns (r: Result<Run, Raised>)
    ensures "time_out" !in p ==> r == Err(KeyError("time_out"))
    ensures "time_out" in p && Cells(p, CommandKeys).Err? ==> r == Err(Cells(p, CommandKeys).error)
    ensures r.Ok? ==> Cells(p, CommandKeys).Ok? && "solver" in p && |r.value.cmd| >= 14
    ensures r.Ok? ==> r.value.cmd[..14] == BaseCommand(Cells(p, CommandKeys).value)
    ensures r.Ok? ==> BoundArgs(lowOnly, p["solver"], Get(p, "sub_optimal")).Ok?
    ensures r.Ok? ==> r.value.cmd[14..] == BoundArgs(lowOnly, p["solver"], Get(p, "sub_optimal")).value + OpArgs(p)
    ensures r.Ok? ==> Ok(r.value.row) == OutcomeRow(lowOnly, p, run(r.value.cmd))
    ensures r.Err? && !r.error.KeyError? && !r.error.UnboundLocal?
        ==> "solver" in p && p["solver"] == PStr("bcbs") && "sub_optimal" in p && Sqrt(p["sub_optimal"]) == Err(r.error)
  {
    if "time_out" !in p {
      return Err(KeyError("time_out"));
    }
    var vs := Cells(p, CommandKeys);
    if vs.Err? {
      return Err(vs.error);
    }
    var cmd := BaseCommand(vs.value);
    assert CommandKeys[4] == "solver";
    var solver := p["solver"];
    var bounds := BoundArgs(lowOnly, solver, Get(p, "sub_optimal"));
    if bounds.Err? {
      return Err(bounds.error);
    }
    var ops := OpArgs(p);
    cmd := cmd + bounds.value;
    cmd := cmd + ops;
    assert cmd[14..] == bounds.value + ops;
    var row := OutcomeRow(lowOnly, p, run(cmd));
    if row.Err? {
      return Err(row.error);
    }
    return Ok(Run(cmd, row.value));
  }

  // ---------------------------------------------------------------------------
  // write_error_csv: the row
  // ---------------------------------------------------------------------------

  /**
   * The `(high_level_suboptimal, low_level_suboptimal)` cells: both `NaN` for cbs, the bound
   * on the low-level side for the low-level-only solvers, on the high-level side for hbcbs,
   * its square root on both sides for bcbs. Any other solver leaves `subopt_values` unbound,
   * which raises only where the row is joined.
   */
  function SubOptCells(lowOnly: seq<PValue>, solver: PValue, sub: Option<PValue>): (r: Result<seq<Text>, Raised>)
    ensures r.Ok? ==> |r.value| == 2
    ensures r == Err(UnboundLocal("subopt_values")) <==> solver != PStr("cbs") && !TakesBound(lowOnly, solver)
    ensures r.Err? && sub.None? ==> r.error.KeyError? || r.error.UnboundLocal?
    ensures r.Err? && sub.Some? && !r.error.UnboundLocal? ==> solver == PStr("bcbs") && Sqrt(sub.value) == Err(r.error)
  {
    if solver == PStr("cbs") then Ok([Lit("NaN"), Lit("NaN")])
    else if solver in lowOnly then
      if sub.None? then Err(KeyError("sub_optimal")) else Ok([Lit("NaN"), Str(sub.value)])
    else if solver == PStr("hbcbs") then
      if sub.None? then Err(KeyError("sub_optimal")) else Ok([Str(sub.value), Lit("NaN")])
    else if solver == PStr("bcbs") then
      if sub.None? then Err(KeyError("sub_optimal"))
      else match Sqrt(sub.value)
        case Err(e) => Err(e)
        case Ok(t) => Ok([t, t])
    else Err(UnboundLocal("subopt_values"))
  }

  const RowKeys: seq<string> := ["map_path", "yaml_path", "num_agents"]
  const RunKeys: seq<string> := ["seed_num", "solver"]
  const FlagKeys: seq<string> := ["op_prioritize_conflicts", "op_bypass_conflicts", "op_target_reasoning"]

  /**
   * The row `write_error_csv` appends: map, yaml, number of agents, `[]` for the agent
   * distribution, seed, solver, the two suboptimality cells, the three option flags, and the
   * error marker. Each cell is read in that order, and the first missing key raises; an unbound
   * `subopt_values` raises only after the flags are read, where the parts are joined.
   */
  function ErrorRow(lowOnly: seq<PValue>, p: Dict, msg: string): (r: Result<seq<Text>, Raised>)
    ensures r.Err? && r.error.UnboundLocal? ==> Cells(p, FlagKeys).Ok?
    ensures r.Ok? ==> |r.value| == 12 && r.value[3] == Lit("[]") && r.value[11] == Lit(msg)
  {
    var base := Cells(p, RowKeys);
    if base.Err? then base
    else
      var rest := Cells(p, RunKeys);
      if rest.Err? then rest
      else
        assert RunKeys[1] == "solver";
        var pair := SubOptCells(lowOnly, p["solver"], Get(p, "sub_optimal"));
        if pair.Err? && !pair.error.UnboundLocal? then pair
        else
          var flags := Cells(p, FlagKeys);
          if flags.Err? then flags
          else if pair.Err? then pair
          else Ok(base.value + [Lit("[]")] + rest.value + pair.value + flags.value + [Lit(msg)])
  }

  /** The suboptimality cell of a side: the bound when the solver takes that bound, else `NaN`. */
  function BoundCell(takes: bool, t: Text): Text {
    if takes then t else Lit("NaN")
  }

  /** The bound a solver is given: its square root for bcbs, which splits it over both levels. */
  function BoundText(solver: string, v: PValue): Text {
    if solver == "bcbs" then SqrtStr(v) else Str(v)
  }

  /**
   * The suboptimality cells of each of the seven solvers hold exactly the bounds `Config::validate`
   * requires of it; for bcbs, a bound `math.sqrt` rejects raises instead.
   */
  lemma SubOptCellsMatchConfig(solver: string, v: PValue)
    requires Config.KnownSolver(solver)
    ensures solver == "bcbs" && Sqrt(v).Err? ==> SubOptCells(LowLevelOnly, PStr(solver), Some(v)) == Err(Sqrt(v).error)
    ensures solver != "bcbs" || Sqrt(v).Ok? ==> var needs := Config.RequiredBounds(solver);
      var t := BoundText(solver, v);
      SubOptCells(LowLevelOnly, PStr(solver), Some(v)) == Ok([BoundCell(needs.0, t), BoundCell(needs.1, t)])
  {
    NamesDistinct();
  }

  /** The seven names differ from one another. */
  lemma NamesDistinct()
    ensures "cbs" != "bcbs" && "cbs" != "hbcbs" && "cbs" != "lbcbs" && "cbs" != "ecbs" && "cbs" != "decbs" && "cbs" != "acbs"
    ensures "bcbs" != "hbcbs" && "bcbs" != "lbcbs" && "bcbs" != "ecbs" && "bcbs" != "decbs" && "bcbs" != "acbs"
    ensures "hbcbs" != "lbcbs" && "hbcbs" != "ecbs" && "hbcbs" != "decbs" && "hbcbs" != "acbs"
    ensures "lbcbs" != "ecbs" && "lbcbs" != "decbs" && "lbcbs" != "acbs"
    ensures "ecbs" != "decbs" && "ecbs" != "acbs" && "decbs" != "acbs"
  {
    assert "bcbs"[0] == 'b' && "hbcbs"[0] == 'h' && "lbcbs"[0] == 'l' && "ecbs"[0] == 'e' && "decbs"[0] == 'd' && "acbs"[0] == 'a';
  }

  /**
   * A failed run's row records, for each of the seven solvers, exactly the bounds
   * `Config::validate` requires of it, between the solver cell and the option flags.
   */
  lemma ErrorRowMatchesConfig(p: Dict, solver: string, msg: string)
    requires Config.KnownSolver(solver) && "solver" in p && p["solver"] == PStr(solver) && "sub_optimal" in p
    requires forall i :: 0 <= i < |RowKeys| ==> RowKeys[i] in p
    requires forall i :: 0 <= i < |RunKeys| ==> RunKeys[i] in p
    requires forall i :: 0 <= i < |FlagKeys| ==> FlagKeys[i] in p
    ensures solver == "bcbs" && Sqrt(p["sub_optimal"]).Err? ==> ErrorRow(LowLevelOnly, p, msg) == Err(Sqrt(p["sub_optimal"]).error)
    ensures solver != "bcbs" || Sqrt(p["sub_optimal"]).Ok? ==> var r := ErrorRow(LowLevelOnly, p, msg);
      var needs := Config.RequiredBounds(solver);
      var t := BoundText(solver, p["sub_optimal"]);
      r.Ok? && r.value[5] == Str(PStr(solver))
      && r.value[6] == BoundCell(needs.0, t) && r.value[7] == BoundCell(needs.1, t)
  {
    SubOptCellsMatchConfig(solver, p["sub_optimal"]);
    assert RunKeys[1] == "solver";
  }

  /**
   * The runner as written leaves acbs, which takes a low-level bound, out of the low-level
   * list, so a failed acbs run raises `UnboundLocalError` instead of writing its row.
   */
  lemma AcbsErrorRowRaises(p: Dict, msg: string)
    requires "solver" in p && p["solver"] == PStr("acbs")
    requires forall i :: 0 <= i < |RowKeys| ==> RowKeys[i] in p
    requires forall i :: 0 <= i < |RunKeys| ==> RunKeys[i] in p
    requires forall i :: 0 <= i < |FlagKeys| ==> FlagKeys[i] in p
    ensures ErrorRow(LowLevelOnlyAsWritten, p, msg) == Err(UnboundLocal("subopt_values"))
    ensures ErrorRow(LowLevelOnly, p, msg) != Err(UnboundLocal("subopt_values"))
    ensures Config.RequiredBounds("acbs") == (false, true)
  {
    NamesDistinct();
    assert RunKeys[1] == "solver";
  }

  /**
   * `op_flags` is built before the parts are joined, so a failed acbs run whose parameters
   * lack an option flag raises `KeyError` for that flag, not `UnboundLocalError`.
   */
  lemma AcbsMissingFlagRaisesKeyError(p: Dict, msg: string)
    requires "solver" in p && p["solver"] == PStr("acbs")
    requires forall i :: 0 <= i < |RowKeys| ==> RowKeys[i] in p
    requires forall i :: 0 <= i < |RunKeys| ==> RunKeys[i] in p
    requires "op_prioritize_conflicts" in p && "op_bypass_conflicts" in p && "op_target_reasoning" !in p
    ensures ErrorRow(LowLevelOnlyAsWritten, p, msg) == Err(KeyError("op_target_reasoning"))
  {
    NamesDistinct();
    assert RunKeys[1] == "solver";
    CellsFirstMissing(p, FlagKeys, 2);
  }

  /**
   * The bound arguments of the command give each of the seven solvers the bounds `Config::validate`
   * requires; for bcbs, a bound `math.sqrt` rejects raises instead.
   */
  lemma BoundArgsMatchConfig(solver: string, v: PValue)
    requires Config.KnownSolver(solver)
    ensures solver == "bcbs" && Sqrt(v).Err? ==> BoundArgs(LowLevelOnly, PStr(solver), Some(v)) == Err(Sqrt(v).error)
    ensures solver != "bcbs" || Sqrt(v).Ok? ==> var needs := Config.RequiredBounds(solver);
      var t := BoundText(solver, v);
      BoundArgs(LowLevelOnly, PStr(solver), Some(v))
      == Ok((if needs.1 then [Lit("--low-level-sub-optimal"), t] else []) + (if needs.0 then [Lit("--high-level-sub-optimal"), t] else []))
  {
    NamesDistinct();
    if solver == "cbs" {
      assert PStr(solver) !in LowLevelOnly;
      assert PStr(solver) != PStr("hbcbs") && PStr(solver) != PStr("bcbs");
      var e: seq<Text> := [];
      assert e + e == e;
    } else if solver == "hbcbs" {
      assert PStr(solver) !in LowLevelOnly;
      var a: seq<Text> := [Lit("--high-level-sub-optimal"), Str(v)];
      assert [] + a == a;
    } else if solver == "bcbs" {
      assert PStr(solver) !in LowLevelOnly;
      assert PStr(solver) != PStr("hbcbs");
      var a: seq<Text> := [Lit("--low-level-sub-optimal"), SqrtStr(v)];
      var b: seq<Text> := [Lit("--high-level-sub-optimal"), SqrtStr(v)];
      assert a + b == [Lit("--low-level-sub-optimal"), SqrtStr(v), Lit("--high-level-sub-optimal"), SqrtStr(v)];
    } else {
      assert PStr(solver) in LowLevelOnly;
      assert Config.RequiredBounds(solver) == (false, true);
      assert BoundText(solver, v) == Str(v);
      var a: seq<Text> := [Lit("--low-level-sub-optimal"), Str(v)];
      assert a + [] == a;
    }
  }

  /**
   * The runner as written gives an acbs run no bound argument, although `Config::validate`
   * rejects acbs without a low-level bound.
   */
  lemma AcbsCommandLacksBound(v: PValue)
    ensures BoundArgs(LowLevelOnlyAsWritten, PStr("acbs"), Some(v)) == Ok([])
    ensures Config.RequiredBounds("acbs").1
  {
    NamesDistinct();
  }
}
