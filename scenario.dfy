/**
 * Moving-AI scenario files (`src/scenario.rs`): reading the routes of a `.scen` file into
 * buckets, and handing routes out to agents either bucket by bucket or at random.
 *
 * The bucket bookkeeping is written once, generically in the route type, because
 * `src/yaml.rs` repeats it for routes that also carry their optimal length.
 */
module Scenario {
  import opened Wrappers
  import opened Common
  import opened Parse

  datatype Route = Route(startX: nat, startY: nat, goalX: nat, goalY: nat)

  /** `buckets` is an `Option` in this file; the loader always fills it in. */
  datatype Scenario = Scenario(mapName: string, mapWidth: nat, mapHeight: nat, buckets: Option<map<nat, seq<Route>>>)

  // ---------------------------------------------------------------------------------
  // One data line
  // ---------------------------------------------------------------------------------

  /** The map name and size a data line carries in fields 1 to 3. */
  datatype Header = Header(mapName: string, width: nat, height: nat)

  /** What the loader starts from: an empty map name, width and height 0. */
  const NoHeader := Header("", 0, 0)

  /** A data line's bucket index and route. */
  datatype Entry<R> = Entry(bucket: nat, route: R)

  /**
   * A data line whose bucket and route parsed; its header fields are parsed as well, but
   * the loader looks at them only while it has no map name yet.
   */
  datatype Parsed<R> = Parsed(entry: Entry<R>, header: Result<Header, Panic>)

  /** Field `k` is present and parses as a `usize`. */
  predicate UsizeField(parts: seq<string>, k: nat) {
    k < |parts| && ParseUsize(parts[k]).Some?
  }

  /** `parts[1].to_string()`, `parts[2].parse().unwrap()`, `parts[3].parse().unwrap()`. */
  function ParseHeader(parts: seq<string>): (r: Result<Header, Panic>)
    ensures r.Ok? <==> UsizeField(parts, 2) && UsizeField(parts, 3)
    ensures r.Ok? ==> r.value.mapName == parts[1]
  {
    if |parts| < 2 then Err(IndexOutOfBounds)
    else match UsizeAt(parts, 2)
      case Err(e) => Err(e)
      case Ok(w) =>
        match UsizeAt(parts, 3)
        case Err(e) => Err(e)
        case Ok(h) => Ok(Header(parts[1], w, h))
  }

  /**
   * The bucket from field 0 and the route with `start_x` from field 5, `start_y` from
   * field 4, `goal_x` from field 7 and `goal_y` from field 6, parsed in that order; the
   * first field that is missing or not a `usize` panics.
   */
  function ParseEntry(parts: seq<string>): (r: Result<Entry<Route>, Panic>)
    ensures r.Ok? <==> UsizeField(parts, 0) && UsizeField(parts, 5) && UsizeField(parts, 4)
                       && UsizeField(parts, 7) && UsizeField(parts, 6)
  {
    match UsizeAt(parts, 0)
    case Err(e) => Err(e)
    case Ok(b) =>
      match UsizeAt(parts, 5)
      case Err(e) => Err(e)
      case Ok(sx) =>
        match UsizeAt(parts, 4)
        case Err(e) => Err(e)
        case Ok(sy) =>
          match UsizeAt(parts, 7)
          case Err(e) => Err(e)
          case Ok(gx) =>
            match UsizeAt(parts, 6)
            case Err(e) => Err(e)
            case Ok(gy) => Ok(Entry(b, Route(sx, sy, gx, gy)))
  }

  /** A header read from a line has the non-empty map name the line's second word gives. */
  predicate Named<R>(p: Result<Parsed<R>, Panic>) {
    p.Ok? && p.value.header.Ok? ==> |p.value.header.value.mapName| > 0
  }

  function ParseLine(line: string): (r: Result<Parsed<Route>, Panic>)
    ensures Named(r)
  {
    var parts := SplitWhitespace(line);
    match ParseEntry(parts)
    case Err(e) => Err(e)
    case Ok(e) => Ok(Parsed(e, ParseHeader(parts)))
  }

  function ParseAll(lines: seq<string>): (ps: seq<Result<Parsed<Route>, Panic>>)
    ensures |ps| == |lines| && forall i :: 0 <= i < |ps| ==> ps[i] == ParseLine(lines[i]) && Named(ps[i])
  {
    seq(|lines|, i requires 0 <= i < |lines| => ParseLine(lines[i]))
  }

  /** A `.scen` data line: bucket, map, width, height, start x, start y, goal x, goal y, optimal length. */
  function FormatLine(bucket: nat, mapName: string, width: nat, height: nat,
                      x1: nat, y1: nat, x2: nat, y2: nat, optimal: string): string
  {
    JoinSpaced([NatToString(bucket), mapName, NatToString(width), NatToString(height),
                NatToString(x1), NatToString(y1), NatToString(x2), NatToString(y2), optimal])
  }

  /**
   * Reading a well-formed data line gives back its bucket and header, with the x and y
   * coordinates of both cells exchanged: the route starts at `(y1, x1)` and ends at `(y2, x2)`.
   */
  lemma ParseFormatLine(bucket: nat, mapName: string, width: nat, height: nat,
                        x1: nat, y1: nat, x2: nat, y2: nat, optimal: string)
    requires IsToken(mapName) && IsToken(optimal)
    requires bucket <= UsizeMax && width <= UsizeMax && height <= UsizeMax
    requires x1 <= UsizeMax && y1 <= UsizeMax && x2 <= UsizeMax && y2 <= UsizeMax
    ensures ParseLine(FormatLine(bucket, mapName, width, height, x1, y1, x2, y2, optimal))
         == Ok(Parsed(Entry(bucket, Route(y1, x1, y2, x2)), Ok(Header(mapName, width, height))))
  {
    var parts := FormatLineSplits(bucket, mapName, width, height, x1, y1, x2, y2, optimal);
    UsizeAtNumeral(parts, 0, bucket);
    UsizeAtNumeral(parts, 2, width);
    UsizeAtNumeral(parts, 3, height);
    UsizeAtNumeral(parts, 4, x1);
    UsizeAtNumeral(parts, 5, y1);
    UsizeAtNumeral(parts, 6, x2);
    UsizeAtNumeral(parts, 7, y2);
    assert ParseEntry(parts) == Ok(Entry(bucket, Route(y1, x1, y2, x2)));
    assert ParseHeader(parts) == Ok(Header(mapName, width, height));
  }

  /** The words of a formatted line are its nine fields. */
  lemma FormatLineSplits(bucket: nat, mapName: string, width: nat, height: nat,
                         x1: nat, y1: nat, x2: nat, y2: nat, optimal: string)
    returns (parts: seq<string>)
    requires IsToken(mapName) && IsToken(optimal)
    ensures |parts| == 9 && parts[0] == NatToString(bucket) && parts[1] == mapName
    ensures parts[2] == NatToString(width) && parts[3] == NatToString(height)
    ensures parts[4] == NatToString(x1) && parts[5] == NatToString(y1)
    ensures parts[6] == NatToString(x2) && parts[7] == NatToString(y2) && parts[8] == optimal
    ensures SplitWhitespace(FormatLine(bucket, mapName, width, height, x1, y1, x2, y2, optimal)) == parts
  {
    parts := [NatToString(bucket), mapName, NatToString(width), NatToString(height),
              NatToString(x1), NatToString(y1), NatToString(x2), NatToString(y2), optimal];
    NumeralsAreTokens();
    SplitJoined(parts);
  }

  lemma UsizeAtNumeral(parts: seq<string>, k: nat, n: nat)
    requires k < |parts| && parts[k] == NatToString(n) && n <= UsizeMax
    ensures UsizeAt(parts, k) == Ok(n)
  {
    ParseUsizeOfString(n);
  }

  lemma NumeralsAreTokens()
    ensures forall n: nat :: IsToken(NatToString(n))
  {
    forall n: nat ensures IsToken(NatToString(n)) {
      var s := NatToString(n);
      assert forall i :: 0 <= i < |s| ==> IsDigit(s[i]);
    }
  }

  // ---------------------------------------------------------------------------------
  // Loading: the bucket map built line by line
  // ---------------------------------------------------------------------------------

  /** `buckets.get(b)`, with a missing bucket read as empty (`or_default`). */
  function BucketOf<R>(buckets: map<nat, seq<R>>, b: nat): seq<R> {
    if b in buckets then buckets[b] else []
  }

  /** `entry(bucket).or_default().push(route)`. */
  function Push<R>(buckets: map<nat, seq<R>>, e: Entry<R>): map<nat, seq<R>> {
    buckets[e.bucket := BucketOf(buckets, e.bucket) + [e.route]]
  }

  /** The map built by pushing the entries in order. */
  function Group<R>(es: seq<Entry<R>>): map<nat, seq<R>> {
    if es == [] then map[] else Push(Group(es[..|es| - 1]), es[|es| - 1])
  }

  /** The routes of bucket `b`, in the order of the entries. */
  function RoutesIn<R>(es: seq<Entry<R>>, b: nat): seq<R> {
    if es == [] then []
    else RoutesIn(es[..|es| - 1], b) + (if es[|es| - 1].bucket == b then [es[|es| - 1].route] else [])
  }

  /** A bucket exists exactly when some entry names it, and holds that bucket's routes in order. */
  lemma {:induction false} GroupContents<R>(es: seq<Entry<R>>)
    ensures forall b :: b in Group(es) <==> exists i :: 0 <= i < |es| && es[i].bucket == b
    ensures forall b :: BucketOf(Group(es), b) == RoutesIn(es, b)
  {
    if es != [] {
      var pre, e := es[..|es| - 1], es[|es| - 1];
      GroupContents(pre);
      assert forall i :: 0 <= i < |pre| ==> pre[i] == es[i];
      forall b | b in Group(es) ensures exists i :: 0 <= i < |es| && es[i].bucket == b {
        if b != e.bucket {
          var i :| 0 <= i < |pre| && pre[i].bucket == b;
          assert es[i].bucket == b;
        }
      }
    }
  }

  /** The loader's state: the header fields and the bucket map. */
  datatype Loading<R> = Loading(header: Header, buckets: map<nat, seq<R>>)

  /** One data line: its parse error, or its header while the map name is empty, then the push. */
  function LoadStep<R>(st: Loading<R>, p: Result<Parsed<R>, Panic>): Result<Loading<R>, Panic> {
    match p
    case Err(e) => Err(e)
    case Ok(line) =>
      if |st.header.mapName| == 0 then
        match line.header
        case Err(e) => Err(e)
        case Ok(h) => Ok(Loading(h, Push(st.buckets, line.entry)))
      else Ok(Loading(st.header, Push(st.buckets, line.entry)))
  }

  /** The data lines folded into the loader's state, stopping at the first panic. */
  function LoadSteps<R>(ps: seq<Result<Parsed<R>, Panic>>): Result<Loading<R>, Panic> {
    if ps == [] then Ok(Loading(NoHeader, map[]))
    else match LoadSteps(ps[..|ps| - 1])
      case Err(e) => Err(e)
      case Ok(st) => LoadStep(st, ps[|ps| - 1])
  }

  /** Line `j` panics: its route does not parse, or it is the first line and its header does not. */
  predicate LineFails<R>(ps: seq<Result<Parsed<R>, Panic>>, j: nat)
    requires j < |ps|
  {
    ps[j].Err? || (j == 0 && ps[0].value.header.Err?)
  }

  function Failure<R>(ps: seq<Result<Parsed<R>, Panic>>, j: nat): Panic
    requires j < |ps| && LineFails(ps, j)
  {
    if ps[j].Err? then ps[j].error else ps[j].value.header.error
  }

  function EntriesOf<R>(ps: seq<Result<Parsed<R>, Panic>>): (es: seq<Entry<R>>)
    requires forall i :: 0 <= i < |ps| ==> ps[i].Ok?
    ensures |es| == |ps| && forall i :: 0 <= i < |ps| ==> es[i] == ps[i].value.entry
  {
    seq(|ps|, i requires 0 <= i < |ps| => ps[i].value.entry)
  }

  /**
   * Loading succeeds exactly when no line fails; it then holds the first line's header and
   * every route grouped by bucket in file order.
   */
  lemma {:induction false} LoadStepsOk<R>(ps: seq<Result<Parsed<R>, Panic>>)
    requires forall i :: 0 <= i < |ps| ==> Named(ps[i])
    ensures LoadSteps(ps).Ok? <==> forall j :: 0 <= j < |ps| ==> !LineFails(ps, j)
    ensures LoadSteps(ps).Ok? ==>
      (forall i :: 0 <= i < |ps| ==> ps[i].Ok?) && (ps != [] ==> ps[0].value.header.Ok?)
      && LoadSteps(ps).value == Loading(if ps == [] then NoHeader else ps[0].value.header.value, Group(EntriesOf(ps)))
  {
    if ps != [] {
      var n := |ps| - 1;
      var pre := ps[..n];
      LoadStepsOk(pre);
      assert forall i :: 0 <= i < n ==> pre[i] == ps[i];
      assert forall i :: 0 <= i < n ==> LineFails(pre, i) == LineFails(ps, i);
      if LoadSteps(pre).Ok? && ps[n].Ok? && (n == 0 ==> ps[0].value.header.Ok?) {
        var st := LoadSteps(pre).value;
        assert n == 0 ==> st.header == NoHeader;
        assert n > 0 ==> st.header == ps[0].value.header.value && Named(ps[0]);
        assert LoadSteps(ps) == LoadStep(st, ps[n]);
        assert LoadSteps(ps).Ok?;
        assert forall j :: 0 <= j < n ==> !LineFails(pre, j);
        assert !LineFails(ps, n);
        var es := EntriesOf(ps);
        assert es[..n] == EntriesOf(pre);
      } else if LoadSteps(pre).Err? {
        var j :| 0 <= j < n && LineFails(pre, j);
        assert LineFails(ps, j);
      } else {
        assert LineFails(ps, n);
        assert n == 0 ==> LoadSteps(pre).value.header == NoHeader;
        assert LoadSteps(ps) == LoadStep(LoadSteps(pre).value, ps[n]);
      }
    }
  }

  /** A failed load reports the panic of the first failing line. */
  lemma {:induction false} LoadStepsErr<R>(ps: seq<Result<Parsed<R>, Panic>>)
    requires forall i :: 0 <= i < |ps| ==> Named(ps[i])
    ensures LoadSteps(ps).Err? ==>
      exists j :: 0 <= j < |ps| && LineFails(ps, j) && (forall i :: 0 <= i < j ==> !LineFails(ps, i))
                  && LoadSteps(ps).error == Failure(ps, j)
  {
    if ps != [] {
      var n := |ps| - 1;
      var pre := ps[..n];
      LoadStepsErr(pre);
      LoadStepsOk(pre);
      assert forall i :: 0 <= i < n ==> pre[i] == ps[i];
      assert forall i :: 0 <= i < n ==> LineFails(pre, i) == LineFails(ps, i);
      if LoadSteps(pre).Err? {
        var j :| 0 <= j < |pre| && LineFails(pre, j) && (forall i :: 0 <= i < j ==> !LineFails(pre, i))
                 && LoadSteps(pre).error == Failure(pre, j);
        assert Failure(pre, j) == Failure(ps, j);
      } else if LoadSteps(ps).Err? {
        assert LineFails(ps, n) && Failure(ps, n) == LoadSteps(ps).error;
      }
    }
  }

  lemma LoadStepsNext<R>(ps: seq<Result<Parsed<R>, Panic>>, i: nat)
    requires i < |ps|
    ensures LoadSteps(ps[..i + 1]) == if LoadSteps(ps[..i]).Err? then LoadSteps(ps[..i]) else LoadStep(LoadSteps(ps[..i]).value, ps[i])
  {
    assert ps[..i + 1][..i] == ps[..i] && ps[..i + 1][i] == ps[i];
  }

  /** A panic on a prefix of the lines is the panic of the whole file. */
  lemma {:induction false} LoadStepsStops<R>(ps: seq<Result<Parsed<R>, Panic>>, k: nat)
    requires k <= |ps| && LoadSteps(ps[..k]).Err?
    ensures LoadSteps(ps) == LoadSteps(ps[..k])
    decreases |ps| - k
  {
    if k < |ps| {
      assert ps[..k + 1][..k] == ps[..k];
      LoadStepsStops(ps, k + 1);
    } else {
      assert ps[..k] == ps;
    }
  }

  /** `load_from_scen` on the file's lines: the first line (the version) is skipped. */
  function Load(lines: seq<string>): Result<Scenario, Panic> {
    if lines == [] then Err(UnwrapNone)
    else match LoadSteps(ParseAll(lines[1..]))
      case Err(e) => Err(e)
      case Ok(st) => Ok(Scenario(st.header.mapName, st.header.width, st.header.height, Some(st.buckets)))
  }

  /** `Scenario::load_from_scen`, given the lines of the file. */
  method LoadFromScen(lines: seq<string>) returns (r: Result<Scenario, Panic>)
    ensures r == Load(lines)
  {
    if |lines| == 0 {
      return Err(UnwrapNone);
    }
    var data := lines[1..];
    ghost var ps := ParseAll(data);
    var mapName: string, mapWidth: nat, mapHeight: nat := "", 0, 0;
    var buckets: map<nat, seq<Route>> := map[];
    for i := 0 to |data|
      invariant LoadSteps(ps[..i]) == Ok(Loading(Header(mapName, mapWidth, mapHeight), buckets))
    {
      var step := ReadLine(mapName, mapWidth, mapHeight, buckets, data[i]);
      assert LoadSteps(ps[..i + 1]) == step by {
        LoadStepsNext(ps, i);
      }
      if step.Err? {
        LoadStepsStops(ps, i + 1);
        return Err(step.error);
      }
      mapName, mapWidth, mapHeight := step.value.header.mapName, step.value.header.width, step.value.header.height;
      buckets := step.value.buckets;
    }
    assert ps[..|data|] == ps;
    return Ok(Scenario(mapName, mapWidth, mapHeight, Some(buckets)));
  }

  /** The body of the loop over the data lines in `load_from_scen`. */
  method ReadLine(mapName: string, mapWidth: nat, mapHeight: nat, buckets: map<nat, seq<Route>>, line: string)
    returns (r: Result<Loading<Route>, Panic>)
    ensures r == LoadStep(Loading(Header(mapName, mapWidth, mapHeight), buckets), ParseLine(line))
  {
    var parts := SplitWhitespace(line);
    var entry := ParseEntry(parts);
    if entry.Err? {
      return Err(entry.error);
    }
    var header := Header(mapName, mapWidth, mapHeight);
    if |mapName| == 0 {
      var read := ParseHeader(parts);
      if read.Err? {
        return Err(read.error);
      }
      header := read.value;
    }
    return Ok(Loading(header, Push(buckets, entry.value)));
  }

  // ---------------------------------------------------------------------------------
  // Assigning routes bucket by bucket
  // ---------------------------------------------------------------------------------

  /** Why a generator returns `Err(String)`. */
  datatype GenError =
    | LengthMismatch        // "Number of agents does not match the length of agent_buckets"
    | BucketNotFound(bucket: nat)
    | NoRoutesLeft(bucket: nat)
    | NotEnoughRoutes       // "Not enough unique routes available to match the number of agents"

  /** What a generator gives back: the agents, an error message, or a panic. */
  datatype Generated = Agents(agents: seq<Agent>) | Failed(error: GenError) | Panicked(panic: Panic)

  /** `(0..n).filter(|idx| !used.contains(idx))`, in increasing order. */
  function Unused(n: nat, used: set<nat>): (r: seq<nat>)
    ensures forall x :: x in r <==> 0 <= x < n && x !in used
  {
    if n == 0 then []
    else
      var pre := Unused(n - 1, used);
      var last: seq<nat> := if n - 1 in used then [] else [n - 1];
      assert forall x :: x in pre + last <==> x in pre || x in last;
      pre + last
  }

  /** `used_routes.get(&b)`, an absent set read as empty. */
  function UsedOf(used: map<nat, set<nat>>, b: nat): set<nat> {
    if b in used then used[b] else {}
  }

  /**
   * The random choices: `choose` picks `available[Draw(draws, k) % |available|]` for agent `k`.
   * Any sequence of draws stands for one run of the random number generator.
   */
  function Draw(draws: seq<nat>, k: nat): nat {
    if k < |draws| then draws[k] else 0
  }

  /** The route indices chosen so far and the used-index sets per bucket. */
  datatype Assigned = Assigned(picks: seq<nat>, used: map<nat, set<nat>>)

  /** The error for a bucket with nothing left to give. */
  function Blocked<R>(buckets: map<nat, seq<R>>, b: nat): GenError {
    if b in buckets then NoRoutesLeft(b) else BucketNotFound(b)
  }

  /** The assignment loop of `generate_agents_by_buckets`, agent by agent. */
  function AssignSteps<R>(buckets: map<nat, seq<R>>, bs: seq<nat>, draws: seq<nat>): Result<Assigned, GenError> {
    if bs == [] then Ok(Assigned([], map[]))
    else match AssignSteps(buckets, bs[..|bs| - 1], draws)
      case Err(e) => Err(e)
      case Ok(st) => AssignStep(buckets, st, bs[|bs| - 1], Draw(draws, |bs| - 1))
  }

  /** One agent with bucket `b`: fail, or take an unused index of `b` and mark it used. */
  function AssignStep<R>(buckets: map<nat, seq<R>>, st: Assigned, b: nat, draw: nat): Result<Assigned, GenError> {
    if b !in buckets then Err(BucketNotFound(b))
    else
      var available := Unused(|buckets[b]|, UsedOf(st.used, b));
      if |available| == 0 then Err(NoRoutesLeft(b))
      else
        var idx := available[draw % |available|];
        Ok(Assigned(st.picks + [idx], st.used[b := UsedOf(st.used, b) + {idx}]))
  }

  /** The indices `0..n`. */
  function Range(n: nat): (r: set<nat>)
    ensures forall x :: x in r <==> 0 <= x < n
  {
    if n == 0 then {} else Range(n - 1) + {n - 1}
  }

  lemma {:induction false} RangeSize(n: nat)
    ensures |Range(n)| == n
  {
    if n > 0 {
      RangeSize(n - 1);
    }
  }

  lemma SubsetSize(a: set<nat>, b: set<nat>)
    requires a <= b
    ensures |a| <= |b|
  {
    assert b == a + (b - a);
  }

  /** With the used indices of a bucket of size `n` below `n`, none is free exactly when all `n` are used. */
  lemma UnusedEmpty(n: nat, used: set<nat>)
    requires used <= Range(n)
    ensures |Unused(n, used)| == 0 <==> |used| >= n
  {
    RangeSize(n);
    if |Unused(n, used)| == 0 {
      assert Range(n) <= used;
      SubsetSize(Range(n), used);
    } else {
      var x := Unused(n, used)[0];
      assert x in Range(n) && x !in used;
      SubsetSize(used, Range(n) - {x});
    }
  }

  /** Agent `i` got index `picks[i]` of its bucket, and the index is marked used. */
  predicate PickedAt<R>(buckets: map<nat, seq<R>>, bs: seq<nat>, st: Assigned, i: nat)
    requires i < |bs| && |st.picks| == |bs|
  {
    bs[i] in buckets && st.picks[i] < |buckets[bs[i]]| && st.picks[i] in UsedOf(st.used, bs[i])
  }

  /** An index per agent, valid in its bucket and marked used. */
  predicate PicksValid<R>(buckets: map<nat, seq<R>>, bs: seq<nat>, st: Assigned) {
    |st.picks| == |bs| && forall i :: 0 <= i < |bs| ==> PickedAt(buckets, bs, st, i)
  }

  /** No index of a bucket is given to two agents. */
  predicate PicksDistinct(bs: seq<nat>, st: Assigned)
    requires |st.picks| == |bs|
  {
    forall i, j :: 0 <= i < j < |bs| && bs[i] == bs[j] ==> st.picks[i] != st.picks[j]
  }

  /** Each bucket has as many used indices as agents asked for it. */
  ghost predicate UsedCounts(bs: seq<nat>, st: Assigned) {
    forall c :: |UsedOf(st.used, c)| == multiset(bs)[c]
  }

  /** The used indices of a bucket lie below its size. */
  ghost predicate UsedBounded<R>(buckets: map<nat, seq<R>>, st: Assigned) {
    forall c :: c in buckets ==> UsedOf(st.used, c) <= Range(|buckets[c]|)
  }

  /** What the assignment loop keeps. */
  ghost predicate AssignInv<R>(buckets: map<nat, seq<R>>, bs: seq<nat>, st: Assigned) {
    PicksValid(buckets, bs, st) && PicksDistinct(bs, st) && UsedCounts(bs, st) && UsedBounded(buckets, st)
  }

  /** Giving index `idx` of bucket `b` to the next agent. */
  function Take(st: Assigned, b: nat, idx: nat): Assigned {
    Assigned(st.picks + [idx], st.used[b := UsedOf(st.used, b) + {idx}])
  }

  lemma {:induction false} AssignStepsInv<R>(buckets: map<nat, seq<R>>, bs: seq<nat>, draws: seq<nat>)
    ensures AssignSteps(buckets, bs, draws).Ok? ==> AssignInv(buckets, bs, AssignSteps(buckets, bs, draws).value)
  {
    if bs != [] && AssignSteps(buckets, bs, draws).Ok? {
      var n := |bs| - 1;
      AssignStepsInv(buckets, bs[..n], draws);
      SplitLast(bs);
      AssignStepInv(buckets, bs[..n], AssignSteps(buckets, bs[..n], draws).value, bs[n], Draw(draws, n));
    }
  }

  /** One step of the assignment keeps its invariant. */
  lemma AssignStepInv<R>(buckets: map<nat, seq<R>>, bs: seq<nat>, st: Assigned, b: nat, draw: nat)
    requires AssignInv(buckets, bs, st) && AssignStep(buckets, st, b, draw).Ok?
    ensures AssignInv(buckets, bs + [b], AssignStep(buckets, st, b, draw).value)
  {
    var used := UsedOf(st.used, b);
    var available := Unused(|buckets[b]|, used);
    var idx := available[draw % |available|];
    assert AssignStep(buckets, st, b, draw).value == Take(st, b, idx);
    assert idx in available;
    TakeValid(buckets, bs, st, b, idx);
    TakeDistinct(buckets, bs, st, b, idx);
    TakeCounts(bs, st, b, idx);
    TakeBounded(buckets, st, b, idx);
  }

  lemma TakeValid<R>(buckets: map<nat, seq<R>>, bs: seq<nat>, st: Assigned, b: nat, idx: nat)
    requires PicksValid(buckets, bs, st) && b in buckets && idx < |buckets[b]|
    ensures PicksValid(buckets, bs + [b], Take(st, b, idx))
  {
    var bs', st' := bs + [b], Take(st, b, idx);
    forall i | 0 <= i < |bs'| ensures PickedAt(buckets, bs', st', i) {
      if i < |bs| {
        assert PickedAt(buckets, bs, st, i);
        assert bs'[i] == bs[i] && st'.picks[i] == st.picks[i];
      }
    }
  }

  lemma TakeDistinct<R>(buckets: map<nat, seq<R>>, bs: seq<nat>, st: Assigned, b: nat, idx: nat)
    requires PicksValid(buckets, bs, st) && PicksDistinct(bs, st) && idx !in UsedOf(st.used, b)
    ensures |Take(st, b, idx).picks| == |bs + [b]| && PicksDistinct(bs + [b], Take(st, b, idx))
  {
    var bs', st' := bs + [b], Take(st, b, idx);
    forall i, j | 0 <= i < j < |bs'| && bs'[i] == bs'[j] ensures st'.picks[i] != st'.picks[j] {
      assert bs'[i] == bs[i] && st'.picks[i] == st.picks[i];
      if j == |bs| {
        assert PickedAt(buckets, bs, st, i);
      } else {
        assert bs'[j] == bs[j] && st'.picks[j] == st.picks[j];
      }
    }
  }

  lemma TakeCounts(bs: seq<nat>, st: Assigned, b: nat, idx: nat)
    requires UsedCounts(bs, st) && idx !in UsedOf(st.used, b)
    ensures UsedCounts(bs + [b], Take(st, b, idx))
  {
    var st' := Take(st, b, idx);
    assert multiset(bs + [b]) == multiset(bs) + multiset{b};
    forall c ensures |UsedOf(st'.used, c)| == multiset(bs + [b])[c] {
      if c == b {
        assert UsedOf(st'.used, c) == UsedOf(st.used, b) + {idx};
      } else {
        assert UsedOf(st'.used, c) == UsedOf(st.used, c);
      }
    }
  }

  lemma TakeBounded<R>(buckets: map<nat, seq<R>>, st: Assigned, b: nat, idx: nat)
    requires UsedBounded(buckets, st) && b in buckets && idx < |buckets[b]|
    ensures UsedBounded(buckets, Take(st, b, idx))
  {
    var st' := Take(st, b, idx);
    forall c | c in buckets ensures UsedOf(st'.used, c) <= Range(|buckets[c]|) {
      if c == b {
        assert UsedOf(st'.used, c) == UsedOf(st.used, b) + {idx};
      } else {
        assert UsedOf(st'.used, c) == UsedOf(st.used, c);
      }
    }
  }

  /** Agent `j` can be served: its bucket exists and has at least as many routes as agents asked for it so far. */
  predicate Fits<R>(buckets: map<nat, seq<R>>, bs: seq<nat>, j: nat)
    requires j < |bs|
  {
    bs[j] in buckets && multiset(bs[..j + 1])[bs[j]] <= |buckets[bs[j]]|
  }

  lemma SplitLast<T>(s: seq<T>)
    requires |s| > 0
    ensures s == s[..|s| - 1] + [s[|s| - 1]]
  {
  }

  /** Whether an agent fits depends only on the agents before it. */
  lemma FitsPrefix<R>(buckets: map<nat, seq<R>>, bs: seq<nat>, k: nat)
    requires k <= |bs|
    ensures forall j :: 0 <= j < k ==> Fits(buckets, bs[..k], j) == Fits(buckets, bs, j)
  {
    forall j | 0 <= j < k ensures Fits(buckets, bs[..k], j) == Fits(buckets, bs, j) {
      assert bs[..k][..j + 1] == bs[..j + 1];
    }
  }

  /** The last agent fits exactly when the step for it succeeds. */
  lemma FitsLast<R>(buckets: map<nat, seq<R>>, bs: seq<nat>, draws: seq<nat>)
    requires |bs| > 0 && AssignSteps(buckets, bs[..|bs| - 1], draws).Ok?
    ensures Fits(buckets, bs, |bs| - 1) <==> AssignSteps(buckets, bs, draws).Ok?
  {
    var n := |bs| - 1;
    var pre, b := bs[..n], bs[n];
    AssignStepsInv(buckets, pre, draws);
    var st := AssignSteps(buckets, pre, draws).value;
    assert bs[..n + 1] == bs;
    SplitLast(bs);
    assert multiset(bs)[b] == multiset(pre)[b] + 1;
    assert UsedCounts(pre, st);
    if b in buckets {
      assert UsedBounded(buckets, st);
      UnusedEmpty(|buckets[b]|, UsedOf(st.used, b));
    }
  }

  /** The assignment succeeds exactly when every agent fits, whatever the draws. */
  lemma {:induction false} AssignStepsOk<R>(buckets: map<nat, seq<R>>, bs: seq<nat>, draws: seq<nat>)
    ensures AssignSteps(buckets, bs, draws).Ok? <==> forall j :: 0 <= j < |bs| ==> Fits(buckets, bs, j)
  {
    if bs != [] {
      var n := |bs| - 1;
      AssignStepsOk(buckets, bs[..n], draws);
      FitsPrefix(buckets, bs, n);
      if AssignSteps(buckets, bs[..n], draws).Ok? {
        FitsLast(buckets, bs, draws);
      }
    }
  }

  /** A failed assignment names the bucket of the first agent that does not fit. */
  lemma {:induction false} AssignStepsErr<R>(buckets: map<nat, seq<R>>, bs: seq<nat>, draws: seq<nat>)
    ensures AssignSteps(buckets, bs, draws).Err? ==>
      exists j :: 0 <= j < |bs| && !Fits(buckets, bs, j) && (forall i :: 0 <= i < j ==> Fits(buckets, bs, i))
                  && AssignSteps(buckets, bs, draws).error == Blocked(buckets, bs[j])
  {
    if bs != [] && AssignSteps(buckets, bs, draws).Err? {
      var n := |bs| - 1;
      AssignStepsErr(buckets, bs[..n], draws);
      FitsPrefix(buckets, bs, n);
      if AssignSteps(buckets, bs[..n], draws).Ok? {
        AssignStepsOk(buckets, bs[..n], draws);
        FitsLast(buckets, bs, draws);
        assert !Fits(buckets, bs, n) && forall i :: 0 <= i < n ==> Fits(buckets, bs, i);
      } else {
        var j :| 0 <= j < n && !Fits(buckets, bs[..n], j) && (forall i :: 0 <= i < j ==> Fits(buckets, bs[..n], i))
                 && AssignSteps(buckets, bs[..n], draws).error == Blocked(buckets, bs[..n][j]);
        assert bs[..n][j] == bs[j];
      }
    }
  }

  /** The routes the picks select, agent by agent. */
  function Chosen<R>(buckets: map<nat, seq<R>>, bs: seq<nat>, st: Assigned): (rs: seq<R>)
    requires PicksValid(buckets, bs, st)
    ensures |rs| == |bs| && forall i :: 0 <= i < |bs| ==> bs[i] in buckets && st.picks[i] < |buckets[bs[i]]| && rs[i] == buckets[bs[i]][st.picks[i]]
  {
    assert forall i :: 0 <= i < |bs| ==> PickedAt(buckets, bs, st, i);
    var rs := seq(|bs|, i requires 0 <= i < |bs| && PickedAt(buckets, bs, st, i) => buckets[bs[i]][st.picks[i]]);
    assert forall i :: 0 <= i < |bs| ==> PickedAt(buckets, bs, st, i) && rs[i] == buckets[bs[i]][st.picks[i]];
    rs
  }

  /** `Agent { id, start: (start_x, start_y), goal: (goal_x, goal_y) }`. */
  function AgentOf(id: nat, r: Route): Agent {
    Agent(id, (r.startX, r.startY), (r.goalX, r.goalY))
  }

  /** One agent per route, numbered from 0. */
  function AgentsOf(rs: seq<Route>): (agents: seq<Agent>)
    ensures |agents| == |rs| && IdsAreIndices(agents)
    ensures forall i :: 0 <= i < |rs| ==> agents[i].start == (rs[i].startX, rs[i].startY) && agents[i].goal == (rs[i].goalX, rs[i].goalY)
  {
    seq(|rs|, i requires 0 <= i < |rs| => AgentOf(i, rs[i]))
  }

  /** `generate_agents_by_buckets`: the length check, the `unwrap` of the buckets, then the loop. */
  function ByBuckets(sc: Scenario, numAgents: nat, bs: seq<nat>, draws: seq<nat>): Generated {
    if |bs| != numAgents then Failed(LengthMismatch)
    else if bs == [] then Agents([])
    else if sc.buckets.None? then Panicked(UnwrapNone)
    else match AssignSteps(sc.buckets.value, bs, draws)
      case Err(e) => Failed(e)
      case Ok(st) =>
        AssignStepsInv(sc.buckets.value, bs, draws);
        Agents(AgentsOf(Chosen(sc.buckets.value, bs, st)))
  }

  lemma AssignStepsNext<R>(buckets: map<nat, seq<R>>, bs: seq<nat>, draws: seq<nat>, i: nat)
    requires i < |bs|
    ensures AssignSteps(buckets, bs[..i + 1], draws)
         == if AssignSteps(buckets, bs[..i], draws).Err? then AssignSteps(buckets, bs[..i], draws)
            else AssignStep(buckets, AssignSteps(buckets, bs[..i], draws).value, bs[i], Draw(draws, i))
  {
    assert bs[..i + 1][..i] == bs[..i] && bs[..i + 1][i] == bs[i];
  }

  /** An agent that cannot be served ends the whole assignment with that error. */
  lemma {:induction false} AssignStepsStops<R>(buckets: map<nat, seq<R>>, bs: seq<nat>, draws: seq<nat>, k: nat)
    requires k <= |bs| && AssignSteps(buckets, bs[..k], draws).Err?
    ensures AssignSteps(buckets, bs, draws) == AssignSteps(buckets, bs[..k], draws)
    decreases |bs| - k
  {
    if k < |bs| {
      AssignStepsNext(buckets, bs, draws, k);
      AssignStepsStops(buckets, bs, draws, k + 1);
    } else {
      assert bs[..k] == bs;
    }
  }

  /** Serving one more agent adds that agent's route to the chosen routes. */
  lemma ChosenNext<R>(buckets: map<nat, seq<R>>, bs: seq<nat>, st: Assigned, b: nat, idx: nat)
    requires PicksValid(buckets, bs, st) && PicksValid(buckets, bs + [b], Take(st, b, idx))
    requires b in buckets && idx < |buckets[b]|
    ensures Chosen(buckets, bs + [b], Take(st, b, idx)) == Chosen(buckets, bs, st) + [buckets[b][idx]]
  {
    var bs' := bs + [b];
    assert forall i :: 0 <= i < |bs| ==> bs'[i] == bs[i] && Take(st, b, idx).picks[i] == st.picks[i];
  }

  lemma AgentsOfNext(rs: seq<Route>, r: Route)
    ensures AgentsOf(rs + [r]) == AgentsOf(rs) + [AgentOf(|rs|, r)]
  {
    assert forall i :: 0 <= i < |rs| ==> (rs + [r])[i] == rs[i];
  }

  /** `Scenario::generate_agents_by_buckets`, with the random choices given as draws. */
  method GenerateAgentsByBuckets(sc: Scenario, numAgents: nat, agentBuckets: seq<nat>, draws: seq<nat>)
    returns (g: Generated)
    ensures g == ByBuckets(sc, numAgents, agentBuckets, draws)
  {
    if |agentBuckets| != numAgents {
      return Failed(LengthMismatch);
    }
    var agents: seq<Agent> := [];
    var used: map<nat, set<nat>> := map[];
    ghost var m := if sc.buckets.Some? then sc.buckets.value else map[];
    ghost var picks: seq<nat> := [];
    for agentId := 0 to |agentBuckets|
      invariant agentId > 0 ==> sc.buckets.Some?
      invariant AssignSteps(m, agentBuckets[..agentId], draws) == Ok(Assigned(picks, used))
      invariant AssignInv(m, agentBuckets[..agentId], Assigned(picks, used))
      invariant agents == AgentsOf(Chosen(m, agentBuckets[..agentId], Assigned(picks, used)))
    {
      if sc.buckets.None? {
        return Panicked(UnwrapNone);
      }
      var bucketIndex := agentBuckets[agentId];
      var pick := PickRoute(sc.buckets.value, used, bucketIndex, Draw(draws, agentId), picks);
      AssignStepsNext(m, agentBuckets, draws, agentId);
      if pick.Err? {
        AssignStepsStops(m, agentBuckets, draws, agentId + 1);
        return Failed(pick.error);
      }
      var routeIndex := pick.value;
      var route := sc.buckets.value[bucketIndex][routeIndex];
      ServeNext(m, agentBuckets, agentId, Assigned(picks, used), routeIndex, Draw(draws, agentId));
      agents := agents + [AgentOf(agentId, route)];
      used := used[bucketIndex := UsedOf(used, bucketIndex) + {routeIndex}];
      picks := picks + [routeIndex];
    }
    assert agentBuckets[..|agentBuckets|] == agentBuckets;
    return Agents(agents);
  }

  /** The invariant and the agents after serving agent `k`. */
  lemma ServeNext(buckets: map<nat, seq<Route>>, bs: seq<nat>, k: nat, st: Assigned, idx: nat, draw: nat)
    requires k < |bs| && AssignInv(buckets, bs[..k], st)
    requires AssignStep(buckets, st, bs[k], draw) == Ok(Take(st, bs[k], idx))
    requires bs[k] in buckets && idx < |buckets[bs[k]]|
    ensures AssignInv(buckets, bs[..k + 1], Take(st, bs[k], idx))
    ensures AgentsOf(Chosen(buckets, bs[..k + 1], Take(st, bs[k], idx)))
         == AgentsOf(Chosen(buckets, bs[..k], st)) + [AgentOf(k, buckets[bs[k]][idx])]
  {
    assert bs[..k + 1] == bs[..k] + [bs[k]];
    AssignStepInv(buckets, bs[..k], st, bs[k], draw);
    ChosenNext(buckets, bs[..k], st, bs[k], idx);
    AgentsOfNext(Chosen(buckets, bs[..k], st), buckets[bs[k]][idx]);
  }

  /** Finding the unused routes of the bucket and choosing one of them. */
  method PickRoute<R>(buckets: map<nat, seq<R>>, used: map<nat, set<nat>>, bucketIndex: nat, draw: nat,
                   ghost picks: seq<nat>)
    returns (r: Result<nat, GenError>)
    ensures r.Err? ==> AssignStep(buckets, Assigned(picks, used), bucketIndex, draw) == Err(r.error)
    ensures r.Ok? ==> bucketIndex in buckets && r.value < |buckets[bucketIndex]|
    ensures r.Ok? ==> AssignStep(buckets, Assigned(picks, used), bucketIndex, draw)
                      == Ok(Take(Assigned(picks, used), bucketIndex, r.value))
  {
    if bucketIndex !in buckets {
      return Err(BucketNotFound(bucketIndex));
    }
    var bucket := buckets[bucketIndex];
    var available := Unused(|bucket|, UsedOf(used, bucketIndex));
    if |available| == 0 {
      return Err(NoRoutesLeft(bucketIndex));
    }
    var routeIndex := available[draw % |available|];
    assert routeIndex in available;
    return Ok(routeIndex);
  }

  /**
   * `generate_agents_by_buckets` succeeds exactly when the lengths agree and, unless no agent
   * is asked for, the buckets are present and every agent fits in its bucket.
   */
  lemma ByBucketsSucceeds(sc: Scenario, numAgents: nat, bs: seq<nat>, draws: seq<nat>)
    ensures ByBuckets(sc, numAgents, bs, draws).Agents? <==>
      |bs| == numAgents && (bs != [] ==> sc.buckets.Some? && forall j :: 0 <= j < |bs| ==> Fits(sc.buckets.value, bs, j))
  {
    if sc.buckets.Some? {
      AssignStepsOk(sc.buckets.value, bs, draws);
    }
  }

  /**
   * On success agent `i` has id `i` and the route at some index of bucket `bs[i]`, and no index
   * of a bucket goes to two agents.
   */
  lemma ByBucketsSound(sc: Scenario, numAgents: nat, bs: seq<nat>, draws: seq<nat>)
    requires ByBuckets(sc, numAgents, bs, draws).Agents?
    ensures var agents := ByBuckets(sc, numAgents, bs, draws).agents;
      |agents| == numAgents && IdsAreIndices(agents) &&
      (bs == [] || exists picks: seq<nat> :: ServedFrom(sc.buckets.value, bs, picks, agents))
  {
    if bs != [] {
      var m := sc.buckets.value;
      var st := AssignSteps(m, bs, draws).value;
      AssignStepsInv(m, bs, draws);
      assert ServedFrom(m, bs, st.picks, AgentsOf(Chosen(m, bs, st)));
    }
  }

  /** Agent `i` got the route at index `picks[i]` of bucket `bs[i]`, and the indices of a bucket differ. */
  predicate ServedFrom(buckets: map<nat, seq<Route>>, bs: seq<nat>, picks: seq<nat>, agents: seq<Agent>) {
    && |picks| == |bs| == |agents|
    && (forall i :: 0 <= i < |bs| ==> bs[i] in buckets && picks[i] < |buckets[bs[i]]|
                                      && agents[i] == AgentOf(i, buckets[bs[i]][picks[i]]))
    && (forall i, j :: 0 <= i < j < |bs| && bs[i] == bs[j] ==> picks[i] != picks[j])
  }

  // ---------------------------------------------------------------------------------
  // Assigning routes at random
  // ---------------------------------------------------------------------------------

  /** `order` lists every bucket index once: one iteration order of the `HashMap`. */
  predicate ListsKeys<R>(buckets: map<nat, seq<R>>, order: seq<nat>) {
    && (forall k :: k in buckets ==> k in order)
    && (forall k :: k in order ==> k in buckets)
    && (forall i, j :: 0 <= i < j < |order| ==> order[i] != order[j])
  }

  /** `flat_map(|(_, bucket)| bucket)` over the buckets in `order`. */
  function Flatten<R>(buckets: map<nat, seq<R>>, order: seq<nat>): seq<R>
    requires forall k :: k in order ==> k in buckets
  {
    if order == [] then [] else Flatten(buckets, order[..|order| - 1]) + buckets[order[|order| - 1]]
  }

  /** Every flattened route belongs to a bucket. */
  lemma {:induction false} FlattenFrom<R>(buckets: map<nat, seq<R>>, order: seq<nat>)
    requires forall k :: k in order ==> k in buckets
    ensures forall r :: r in Flatten(buckets, order) ==> exists b :: b in buckets && r in buckets[b]
  {
    if order != [] {
      FlattenFrom(buckets, order[..|order| - 1]);
    }
  }

  /** The first `n` routes `pop` takes: the last element first. */
  function Popped<R>(s: seq<R>, n: nat): (rs: seq<R>)
    requires n <= |s|
    ensures |rs| == n && forall i :: 0 <= i < n ==> rs[i] == s[|s| - 1 - i]
  {
    seq(n, i requires 0 <= i < n => s[|s| - 1 - i])
  }

  /** Popping `n` times takes exactly the last `n` list positions, so no route more often than it is listed. */
  lemma {:induction false} PoppedTail<R>(s: seq<R>, n: nat)
    requires n <= |s|
    ensures multiset(Popped(s, n)) == multiset(s[|s| - n..])
  {
    if n > 0 {
      PoppedTail(s, n - 1);
      assert Popped(s, n) == Popped(s, n - 1) + [s[|s| - n]];
      assert s[|s| - n..] == [s[|s| - n]] + s[|s| - (n - 1)..];
    }
  }

  lemma PoppedWithin<R>(s: seq<R>, n: nat)
    requires n <= |s|
    ensures multiset(Popped(s, n)) <= multiset(s)
  {
    PoppedTail(s, n);
    assert s == s[..|s| - n] + s[|s| - n..];
  }

  /**
   * `Scenario::generate_agents_randomly`. The `HashMap` iteration order is `order`, and the
   * list after `sort` and `shuffle` is `shuffled`, which may be any rearrangement of the
   * flattened routes.
   */
  method GenerateAgentsRandomly(sc: Scenario, numAgents: nat, order: seq<nat>, shuffled: seq<Route>)
    returns (g: Generated)
    requires sc.buckets.Some? ==> ListsKeys(sc.buckets.value, order)
                                  && multiset(shuffled) == multiset(Flatten(sc.buckets.value, order))
    ensures sc.buckets.None? ==> g == Panicked(UnwrapNone)
    ensures sc.buckets.Some? && |Flatten(sc.buckets.value, order)| < numAgents ==> g == Failed(NotEnoughRoutes)
    ensures sc.buckets.Some? && numAgents <= |Flatten(sc.buckets.value, order)| ==>
      |shuffled| == |Flatten(sc.buckets.value, order)| && g == Agents(AgentsOf(Popped(shuffled, numAgents)))
  {
    if sc.buckets.None? {
      return Panicked(UnwrapNone);
    }
    var available := Flatten(sc.buckets.value, order);
    if |available| < numAgents {
      return Failed(NotEnoughRoutes);
    }
    assert |shuffled| == |multiset(shuffled)| == |available|;
    available := shuffled;
    var agents: seq<Agent> := [];
    var used: set<Route> := {};
    for agentId := 0 to numAgents
      invariant available == shuffled[..|shuffled| - agentId]
      invariant agents == AgentsOf(Popped(shuffled, agentId))
    {
      var route := available[|available| - 1];
      available := available[..|available| - 1];
      assert Popped(shuffled, agentId + 1) == Popped(shuffled, agentId) + [route];
      AgentsOfNext(Popped(shuffled, agentId), route);
      agents := agents + [AgentOf(agentId, route)];
      used := used + {route};
    }
    return Agents(agents);
  }

  /**
   * Each randomly assigned agent's route belongs to a bucket, and no route is handed out
   * more often than the buckets hold it.
   */
  lemma RandomlyFromBuckets(buckets: map<nat, seq<Route>>, order: seq<nat>, shuffled: seq<Route>, n: nat)
    requires ListsKeys(buckets, order) && multiset(shuffled) == multiset(Flatten(buckets, order))
    requires n <= |shuffled|
    ensures multiset(Popped(shuffled, n)) <= multiset(Flatten(buckets, order))
    ensures forall i :: 0 <= i < n ==> exists b :: b in buckets && Popped(shuffled, n)[i] in buckets[b]
  {
    PoppedWithin(shuffled, n);
    FlattenFrom(buckets, order);
    forall i | 0 <= i < n ensures exists b :: b in buckets && Popped(shuffled, n)[i] in buckets[b] {
      var r := Popped(shuffled, n)[i];
      assert r in multiset(Popped(shuffled, n));
      assert r in Flatten(buckets, order);
    }
  }
}
