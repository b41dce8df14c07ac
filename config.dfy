/**
 * Command-line configuration: `Config::new` copies the parsed arguments and
 * `Config::validate` checks the suboptimality bounds each solver needs.
 */
module Config {
  import opened Wrappers

  datatype Cli = Cli(
    yamlPath: string,
    mapPath: string,
    outputPath: Option<string>,
    solutionPath: string,
    numAgents: nat,
    agentsDist: seq<nat>,
    deterministicScen: bool,
    seed: nat,
    lowLevelSubOptimal: Option<real>,
    highLevelSubOptimal: Option<real>,
    solver: string,
    debugYaml: bool,
    opPrioritizeConflicts: bool,
    opBypassConflicts: bool,
    opTargetReasoning: bool,
    timeoutSecs: nat)

  /** `subOptimal` is the pair (high-level bound, low-level bound). */
  datatype Config = Config(
    yamlPath: string,
    mapPath: string,
    outputPath: Option<string>,
    solutionPath: string,
    numAgents: nat,
    agentsDist: seq<nat>,
    deterministicScen: bool,
    seed: nat,
    subOptimal: (Option<real>, Option<real>),
    solver: string,
    debugYaml: bool,
    opPrioritizeConflicts: bool,
    opBypassConflicts: bool,
    opTargetReasoning: bool,
    timeoutSecs: nat)

  function New(cli: Cli): (c: Config)
    ensures c.subOptimal == (cli.highLevelSubOptimal, cli.lowLevelSubOptimal)
    ensures c.solver == cli.solver && c.numAgents == cli.numAgents && c.seed == cli.seed
    ensures ToCli(c) == cli
  {
    Config(cli.yamlPath, cli.mapPath, cli.outputPath, cli.solutionPath, cli.numAgents,
           cli.agentsDist, cli.deterministicScen, cli.seed,
           (cli.highLevelSubOptimal, cli.lowLevelSubOptimal), cli.solver, cli.debugYaml,
           cli.opPrioritizeConflicts, cli.opBypassConflicts, cli.opTargetReasoning, cli.timeoutSecs)
  }

  /** Reads the arguments back out of a configuration; `New` loses nothing. */
  function ToCli(c: Config): Cli {
    Cli(c.yamlPath, c.mapPath, c.outputPath, c.solutionPath, c.numAgents, c.agentsDist,
        c.deterministicScen, c.seed, c.subOptimal.1, c.subOptimal.0, c.solver, c.debugYaml,
        c.opPrioritizeConflicts, c.opBypassConflicts, c.opTargetReasoning, c.timeoutSecs)
  }

  lemma NewInjective(a: Cli, b: Cli)
    requires New(a) == New(b)
    ensures a == b
  {
    assert ToCli(New(a)) == a;
  }

  /** The seven solver names `validate` accepts; any other name reaches `unreachable!`. */
  predicate KnownSolver(solver: string) {
    solver in {"cbs", "lbcbs", "ecbs", "decbs", "acbs", "hbcbs", "bcbs"}
  }

  /** Which bounds a solver takes: (high-level bound present, low-level bound present). */
  function RequiredBounds(solver: string): (needs: (bool, bool))
    requires KnownSolver(solver)
  {
    if solver == "cbs" then (false, false)
    else if solver == "hbcbs" then (true, false)
    else if solver == "bcbs" then (true, true)
    else (false, true)
  }

  datatype ValidationError =
    | UnexpectedBounds(solver: string, high: Option<real>, low: Option<real>)
    | LowLevelBelowOne(bound: real)
    | HighLevelBelowOne(bound: real)

  /**
   * `validate`: the presence check of the solver's bounds, then the low-level value, then the
   * high-level value. A solver name outside the seven reaches `unreachable!()`, a panic.
   */
  function Validate(c: Config): (r: Result<Result<(), ValidationError>, Panic>)
    ensures r.Err? <==> !KnownSolver(c.solver)
    ensures r.Err? ==> r.error == Unreachable
    ensures r.Ok? ==> (r.value.Ok? <==>
      (c.subOptimal.0.Some?, c.subOptimal.1.Some?) == RequiredBounds(c.solver) &&
      (c.subOptimal.1.Some? ==> c.subOptimal.1.value >= 1.0) &&
      (c.subOptimal.0.Some? ==> c.subOptimal.0.value >= 1.0))
    ensures r.Ok? ==> (r.value.Err? && r.value.error.UnexpectedBounds? <==>
      (c.subOptimal.0.Some?, c.subOptimal.1.Some?) != RequiredBounds(c.solver))
    ensures r.Ok? && r.value.Err? && r.value.error.LowLevelBelowOne? ==>
      c.subOptimal.1.Some? && r.value.error.bound == c.subOptimal.1.value && r.value.error.bound < 1.0
    ensures r.Ok? && r.value.Err? && r.value.error.HighLevelBelowOne? ==>
      c.subOptimal.0.Some? && r.value.error.bound == c.subOptimal.0.value && r.value.error.bound < 1.0 &&
      (c.subOptimal.1.Some? ==> c.subOptimal.1.value >= 1.0)
  {
    var (high, low) := c.subOptimal;
    var presenceOk: Option<bool> :=
      match c.solver
      case "cbs" => Some(!(high.Some? || low.Some?))
      case "lbcbs" => Some(!(high.Some? || low.None?))
      case "ecbs" => Some(!(high.Some? || low.None?))
      case "decbs" => Some(!(high.Some? || low.None?))
      case "acbs" => Some(!(high.Some? || low.None?))
      case "hbcbs" => Some(!(high.None? || low.Some?))
      case "bcbs" => Some(!(high.None? || low.None?))
      case _ => None;
    if presenceOk.None? then Err(Unreachable)
    else if !presenceOk.value then Ok(Err(UnexpectedBounds(c.solver, high, low)))
    else if low.Some? && low.value < 1.0 then Ok(Err(LowLevelBelowOne(low.value)))
    else if high.Some? && high.value < 1.0 then Ok(Err(HighLevelBelowOne(high.value)))
    else Ok(Ok(()))
  }

  /** A bound of exactly 1.0 is accepted (the messages say "greater than 1.0"). */
  lemma ExactlyOneAccepted(c: Config)
    requires c.solver == "bcbs" && c.subOptimal == (Some(1.0), Some(1.0))
    ensures Validate(c) == Ok(Ok(()))
  {
  }
}
