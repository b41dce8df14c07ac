/**
 * The scenario loader of `src/yaml.rs`: the same `.scen` reading and route assignment as
 * `src/scenario.rs`, for routes that also carry their optimal length, with equality and
 * hashing that look at the four coordinates only.
 */
module Yaml {
  import opened Wrappers
  import opened Common
  import opened Parse
  import S = Scenario

  datatype Route = Route(startX: nat, startY: nat, goalX: nat, goalY: nat, optimalLength: F64)

  /** Here `buckets` is a plain map. */
  datatype Scenario = Scenario(mapName: string, mapWidth: nat, mapHeight: nat, buckets: map<nat, seq<Route>>)

  // ---------------------------------------------------------------------------------
  // Equality and hashing
  // ---------------------------------------------------------------------------------

  /** `Route::eq`: the four coordinates agree; the optimal length is not compared. */
  predicate Same(a: Route, b: Route) {
    a.startX == b.startX && a.startY == b.startY && a.goalX == b.goalX && a.goalY == b.goalY
  }

  /** What `Route::hash` feeds the hasher: the four coordinates, in field order. */
  function HashFeed(r: Route): seq<nat> {
    [r.startX, r.startY, r.goalX, r.goalY]
  }

  /** `eq` is an equivalence, as `impl Eq` promises. */
  lemma SameIsEquivalence(a: Route, b: Route, c: Route)
    ensures Same(a, a)
    ensures Same(a, b) ==> Same(b, a)
    ensures Same(a, b) && Same(b, c) ==> Same(a, c)
  {
  }

  /** Equal routes feed the hasher the same values, and routes that feed the same values are equal. */
  lemma SameIffSameHash(a: Route, b: Route)
    ensures Same(a, b) <==> HashFeed(a) == HashFeed(b)
  {
    if HashFeed(a) == HashFeed(b) {
      assert HashFeed(a)[0] == HashFeed(b)[0] && HashFeed(a)[1] == HashFeed(b)[1];
      assert HashFeed(a)[2] == HashFeed(b)[2] && HashFeed(a)[3] == HashFeed(b)[3];
    }
  }

  /** Two routes that differ only in their optimal length are equal. */
  lemma SameIgnoresLength(r: Route, length: F64)
    ensures Same(r, r.(optimalLength := length)) && HashFeed(r) == HashFeed(r.(optimalLength := length))
  {
  }

  // ---------------------------------------------------------------------------------
  // Reading the file
  // ---------------------------------------------------------------------------------

  /**
   * The bucket from field 0, the route from fields 5, 4, 7 and 6, as in `src/scenario.rs`,
   * then `optimal_length` from field 8 as an `f64`; the first bad field panics.
   */
  function ParseEntry(parts: seq<string>): (r: Result<S.Entry<Route>, Panic>)
    ensures r.Ok? <==> S.UsizeField(parts, 0) && S.UsizeField(parts, 5) && S.UsizeField(parts, 4)
                       && S.UsizeField(parts, 7) && S.UsizeField(parts, 6)
                       && 8 < |parts| && ParseF64(parts[8]).Some?
  {
    match UsizeAt(parts, 0)
    case Err(e) => Err(e)
    case Ok(b) =>
      match UsizeAt(parts, 5)
      case Err(e) => Err(e)
      case Ok(sx) =>
        match UsizeAt(parts, 4)
        case Err(e) => Err(e)
        case Ok(sy) =>
          match UsizeAt(parts, 7)
          case Err(e) => Err(e)
          case Ok(gx) =>
            match UsizeAt(parts, 6)
            case Err(e) => Err(e)
            case Ok(gy) =>
              match RealAt(parts, 8)
              case Err(e) => Err(e)
              case Ok(len) => Ok(S.Entry(b, Route(sx, sy, gx, gy, len)))
  }

  function ParseLine(line: string): (r: Result<S.Parsed<Route>, Panic>)
    ensures S.Named(r)
  {
    var parts := SplitWhitespace(line);
    match ParseEntry(parts)
    case Err(e) => Err(e)
    case Ok(e) => Ok(S.Parsed(e, S.ParseHeader(parts)))
  }

  function ParseAll(lines: seq<string>): (ps: seq<Result<S.Parsed<Route>, Panic>>)
    ensures |ps| == |lines| && forall i :: 0 <= i < |ps| ==> ps[i] == ParseLine(lines[i]) && S.Named(ps[i])
  {
    seq(|lines|, i requires 0 <= i < |lines| => ParseLine(lines[i]))
  }

  /**
   * Reading a well-formed data line exchanges x and y as in `src/scenario.rs` and keeps the
   * optimal length the last field gives.
   */
  lemma ParseFormatLine(bucket: nat, mapName: string, width: nat, height: nat,
                        x1: nat, y1: nat, x2: nat, y2: nat, optimal: string)
    requires IsToken(mapName) && IsToken(optimal) && ParseF64(optimal).Some?
    requires bucket <= UsizeMax && width <= UsizeMax && height <= UsizeMax
    requires x1 <= UsizeMax && y1 <= UsizeMax && x2 <= UsizeMax && y2 <= UsizeMax
    ensures ParseLine(S.FormatLine(bucket, mapName, width, height, x1, y1, x2, y2, optimal))
         == Ok(S.Parsed(S.Entry(bucket, Route(y1, x1, y2, x2, ParseF64(optimal).value)), Ok(S.Header(mapName, width, height))))
  {
    var parts := S.FormatLineSplits(bucket, mapName, width, height, x1, y1, x2, y2, optimal);
    S.UsizeAtNumeral(parts, 0, bucket);
    S.UsizeAtNumeral(parts, 2, width);
    S.UsizeAtNumeral(parts, 3, height);
    S.UsizeAtNumeral(parts, 4, x1);
    S.UsizeAtNumeral(parts, 5, y1);
    S.UsizeAtNumeral(parts, 6, x2);
    S.UsizeAtNumeral(parts, 7, y2);
    assert RealAt(parts, 8) == Ok(ParseF64(optimal).value);
    assert ParseEntry(parts) == Ok(S.Entry(bucket, Route(y1, x1, y2, x2, ParseF64(optimal).value)));
    assert S.ParseHeader(parts) == Ok(S.Header(mapName, width, height));
  }

  /** `load_from_file` on the file's lines: the first line (the version) is skipped. */
  function Load(lines: seq<string>): Result<Scenario, Panic> {
    if lines == [] then Err(UnwrapNone)
    else match S.LoadSteps(ParseAll(lines[1..]))
      case Err(e) => Err(e)
      case Ok(st) => Ok(Scenario(st.header.mapName, st.header.width, st.header.height, st.buckets))
  }

  /** `Scenario::load_from_file`, given the lines of the file. */
  method LoadFromFile(lines: seq<string>) returns (r: Result<Scenario, Panic>)
    ensures r == Load(lines)
  {
    if |lines| == 0 {
      return Err(UnwrapNone);
    }
    var data := lines[1..];
    ghost var ps := ParseAll(data);
    var mapName: string, mapWidth: nat, mapHeight: nat := "", 0, 0;
    var buckets: map<nat, seq<Route>> := map[];
    for i := 0 to |data|
      invariant S.LoadSteps(ps[..i]) == Ok(S.Loading(S.Header(mapName, mapWidth, mapHeight), buckets))
    {
      var step := ReadLine(mapName, mapWidth, mapHeight, buckets, data[i]);
      assert S.LoadSteps(ps[..i + 1]) == step by {
        S.LoadStepsNext(ps, i);
      }
      if step.Err? {
        S.LoadStepsStops(ps, i + 1);
        return Err(step.error);
      }
      mapName, mapWidth, mapHeight := step.value.header.mapName, step.value.header.width, step.value.header.height;
      buckets := step.value.buckets;
    }
    assert ps[..|data|] == ps;
    return Ok(Scenario(mapName, mapWidth, mapHeight, buckets));
  }

  /** The body of the loop over the data lines in `load_from_file`. */
  method ReadLine(mapName: string, mapWidth: nat, mapHeight: nat, buckets: map<nat, seq<Route>>, line: string)
    returns (r: Result<S.Loading<Route>, Panic>)
    ensures r == S.LoadStep(S.Loading(S.Header(mapName, mapWidth, mapHeight), buckets), ParseLine(line))
  {
    var parts := SplitWhitespace(line);
    var entry := ParseEntry(parts);
    if entry.Err? {
      return Err(entry.error);
    }
    var header := S.Header(mapName, mapWidth, mapHeight);
    if |mapName| == 0 {
      var read := S.ParseHeader(parts);
      if read.Err? {
        return Err(read.error);
      }
      header := read.value;
    }
    return Ok(S.Loading(header, S.Push(buckets, entry.value)));
  }

  // ---------------------------------------------------------------------------------
  // Assigning routes
  // ---------------------------------------------------------------------------------

  function AgentOf(id: nat, r: Route): Agent {
    Agent(id, (r.startX, r.startY), (r.goalX, r.goalY))
  }

  /** One agent per route, numbered from 0. */
  function AgentsOf(rs: seq<Route>): (agents: seq<Agent>)
    ensures |agents| == |rs| && IdsAreIndices(agents)
    ensures forall i :: 0 <= i < |rs| ==> agents[i].start == (rs[i].startX, rs[i].startY) && agents[i].goal == (rs[i].goalX, rs[i].goalY)
  {
    seq(|rs|, i requires 0 <= i < |rs| => AgentOf(i, rs[i]))
  }

  lemma AgentsOfNext(rs: seq<Route>, r: Route)
    ensures AgentsOf(rs + [r]) == AgentsOf(rs) + [AgentOf(|rs|, r)]
  {
    assert forall i :: 0 <= i < |rs| ==> (rs + [r])[i] == rs[i];
  }

  /** `generate_agents_by_buckets`: here the buckets are always present. */
  function ByBuckets(sc: Scenario, numAgents: nat, bs: seq<nat>, draws: seq<nat>): S.Generated {
    if |bs| != numAgents then S.Failed(S.LengthMismatch)
    else match S.AssignSteps(sc.buckets, bs, draws)
      case Err(e) => S.Failed(e)
      case Ok(st) =>
        S.AssignStepsInv(sc.buckets, bs, draws);
        S.Agents(AgentsOf(S.Chosen(sc.buckets, bs, st)))
  }

  /** `generate_agents_by_buckets` succeeds exactly when the lengths agree and every agent fits. */
  lemma ByBucketsSucceeds(sc: Scenario, numAgents: nat, bs: seq<nat>, draws: seq<nat>)
    ensures ByBuckets(sc, numAgents, bs, draws).Agents? <==>
      |bs| == numAgents && forall j :: 0 <= j < |bs| ==> S.Fits(sc.buckets, bs, j)
  {
    S.AssignStepsOk(sc.buckets, bs, draws);
  }

  /** Agent `i` got the route at index `picks[i]` of bucket `bs[i]`, and the indices of a bucket differ. */
  predicate ServedFrom(buckets: map<nat, seq<Route>>, bs: seq<nat>, picks: seq<nat>, agents: seq<Agent>) {
    && |picks| == |bs| == |agents|
    && (forall i :: 0 <= i < |bs| ==> bs[i] in buckets && picks[i] < |buckets[bs[i]]|
                                      && agents[i] == AgentOf(i, buckets[bs[i]][picks[i]]))
    && (forall i, j :: 0 <= i < j < |bs| && bs[i] == bs[j] ==> picks[i] != picks[j])
  }

  /** On success agent `i` has id `i` and an index of bucket `bs[i]` that no other agent of the bucket has. */
  lemma ByBucketsSound(sc: Scenario, numAgents: nat, bs: seq<nat>, draws: seq<nat>)
    requires ByBuckets(sc, numAgents, bs, draws).Agents?
    ensures var agents := ByBuckets(sc, numAgents, bs, draws).agents;
      |agents| == numAgents && IdsAreIndices(agents) && exists picks: seq<nat> :: ServedFrom(sc.buckets, bs, picks, agents)
  {
    var st := S.AssignSteps(sc.buckets, bs, draws).value;
    S.AssignStepsInv(sc.buckets, bs, draws);
    assert ServedFrom(sc.buckets, bs, st.picks, AgentsOf(S.Chosen(sc.buckets, bs, st)));
  }

  /** The invariant and the agents after serving agent `k`. */
  lemma ServeNext(buckets: map<nat, seq<Route>>, bs: seq<nat>, k: nat, st: S.Assigned, idx: nat, draw: nat)
    requires k < |bs| && S.AssignInv(buckets, bs[..k], st)
    requires S.AssignStep(buckets, st, bs[k], draw) == Ok(S.Take(st, bs[k], idx))
    requires bs[k] in buckets && idx < |buckets[bs[k]]|
    ensures S.AssignInv(buckets, bs[..k + 1], S.Take(st, bs[k], idx))
    ensures AgentsOf(S.Chosen(buckets, bs[..k + 1], S.Take(st, bs[k], idx)))
         == AgentsOf(S.Chosen(buckets, bs[..k], st)) + [AgentOf(k, buckets[bs[k]][idx])]
  {
    assert bs[..k + 1] == bs[..k] + [bs[k]];
    S.AssignStepInv(buckets, bs[..k], st, bs[k], draw);
    S.ChosenNext(buckets, bs[..k], st, bs[k], idx);
    AgentsOfNext(S.Chosen(buckets, bs[..k], st), buckets[bs[k]][idx]);
  }

  /** `Scenario::generate_agents_by_buckets`, with the random choices given as draws. */
  method GenerateAgentsByBuckets(sc: Scenario, numAgents: nat, agentBuckets: seq<nat>, draws: seq<nat>)
    returns (g: S.Generated)
    ensures g == ByBuckets(sc, numAgents, agentBuckets, draws)
  {
    if |agentBuckets| != numAgents {
      return S.Failed(S.LengthMismatch);
    }
    var agents: seq<Agent> := [];
    var used: map<nat, set<nat>> := map[];
    ghost var picks: seq<nat> := [];
    for agentId := 0 to |agentBuckets|
      invariant S.AssignSteps(sc.buckets, agentBuckets[..agentId], draws) == Ok(S.Assigned(picks, used))
      invariant S.AssignInv(sc.buckets, agentBuckets[..agentId], S.Assigned(picks, used))
      invariant agents == AgentsOf(S.Chosen(sc.buckets, agentBuckets[..agentId], S.Assigned(picks, used)))
    {
      var bucketIndex := agentBuckets[agentId];
      var pick := S.PickRoute(sc.buckets, used, bucketIndex, S.Draw(draws, agentId), picks);
      S.AssignStepsNext(sc.buckets, agentBuckets, draws, agentId);
      if pick.Err? {
        S.AssignStepsStops(sc.buckets, agentBuckets, draws, agentId + 1);
        return S.Failed(pick.error);
      }
      var routeIndex := pick.value;
      var route := sc.buckets[bucketIndex][routeIndex];
      ServeNext(sc.buckets, agentBuckets, agentId, S.Assigned(picks, used), routeIndex, S.Draw(draws, agentId));
      agents := agents + [AgentOf(agentId, route)];
      used := used[bucketIndex := S.UsedOf(used, bucketIndex) + {routeIndex}];
      picks := picks + [routeIndex];
    }
    assert agentBuckets[..|agentBuckets|] == agentBuckets;
    return S.Agents(agents);
  }

  /**
   * `Scenario::generate_agents_randomly`. The `HashMap` iteration order is `order`, and the
   * list after `shuffle` is `shuffled`, which may be any rearrangement of the flattened routes.
   */
  method GenerateAgentsRandomly(sc: Scenario, numAgents: nat, order: seq<nat>, shuffled: seq<Route>)
    returns (g: S.Generated)
    requires S.ListsKeys(sc.buckets, order) && multiset(shuffled) == multiset(S.Flatten(sc.buckets, order))
    ensures |S.Flatten(sc.buckets, order)| < numAgents ==> g == S.Failed(S.NotEnoughRoutes)
    ensures numAgents <= |S.Flatten(sc.buckets, order)| ==>
      |shuffled| == |S.Flatten(sc.buckets, order)| && g == S.Agents(AgentsOf(S.Popped(shuffled, numAgents)))
  {
    var available := S.Flatten(sc.buckets, order);
    if |available| < numAgents {
      return S.Failed(S.NotEnoughRoutes);
    }
    assert |shuffled| == |multiset(shuffled)| == |available|;
    available := shuffled;
    var agents: seq<Agent> := [];
    var used: set<Route> := {};
    for agentId := 0 to numAgents
      invariant available == shuffled[..|shuffled| - agentId]
      invariant agents == AgentsOf(S.Popped(shuffled, agentId))
    {
      var route := available[|available| - 1];
      available := available[..|available| - 1];
      assert S.Popped(shuffled, agentId + 1) == S.Popped(shuffled, agentId) + [route];
      AgentsOfNext(S.Popped(shuffled, agentId), route);
      agents := agents + [AgentOf(agentId, route)];
      used := used + {route};
    }
    return S.Agents(agents);
  }
}
