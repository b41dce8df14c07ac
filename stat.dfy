/**
 * The experiment-result aggregator: loading the result table and censoring timed-out runs,
 * nearest-rank percentiles, the cross-check of every solver's costs against cbs, and one
 * summary row per configuration. A table is a sequence of rows, each a map from column
 * name to cell.
 */
module Stat {
  import opened Wrappers

  /** A cell as the loaded table holds it: an integer, a text, or missing (`NaN`). */
  datatype Value = Num(n: int) | Text(s: string) | Missing

  type Row = map<string, Value>

  /** A loaded CSV file: its header and its rows. */
  datatype Frame = Frame(columns: seq<string>, rows: seq<Row>)

  /** What the script raises: a `ValueError` naming the missing columns, a `KeyError`, or numpy refusing the data. */
  datatype Raised = MissingColumns(cols: seq<string>) | KeyError(name: string) | EmptyPercentile | NonNumeric

  /** `np.iinfo(np.int64).max`. */
  const MaxInt: int := 0x7fff_ffff_ffff_ffff

  const TimeoutValue: string := "timeout"

  const RequiredColumns: seq<string> := [
    "num_agents", "seed", "op_PC", "op_BC", "op_TR",
    "solver", "costs", "time(us)", "high_level_expanded",
    "low_level_open_expanded", "low_level_focal_expanded",
    "low_level_mdd_open_expanded", "low_level_mdd_focal_expanded",
    "total_low_level_expanded"]

  /** The metric columns a timed-out run has censored. */
  const TimeoutColumns: seq<string> := [
    "time(us)", "high_level_expanded", "low_level_open_expanded",
    "low_level_focal_expanded", "low_level_mdd_open_expanded", "low_level_mdd_focal_expanded",
    "total_low_level_expanded"]

  // Sequence facts the loops over frames use.

  lemma TakeNext<T>(s: seq<T>, i: nat)
    requires i < |s|
    ensures s[..i + 1] == s[..i] + [s[i]]
  {
  }

  lemma TakeAll<T>(s: seq<T>)
    ensures s[..|s|] == s
  {
  }

  lemma DropSnoc<T>(s: seq<T>, x: T)
    requires |s| > 0
    ensures (s + [x])[1..] == s[1..] + [x]
  {
  }

  /** The cell of column `c`, missing when the row has no such column. */
  function Get(r: Row, c: string): Value {
    if c in r then r[c] else Missing
  }

  // ---------------------------------------------------------------------------
  // load_and_clean_data
  // ---------------------------------------------------------------------------

  /** The required columns absent from `columns`, in the order they are required. */
  function MissingFrom(required: seq<string>, columns: seq<string>): (m: seq<string>)
    ensures forall c :: c in m <==> c in required && c !in columns
  {
    if required == [] then []
    else (if required[0] in columns then [] else [required[0]]) + MissingFrom(required[1..], columns)
  }

  predicate OccursAt(s: string, t: string, i: nat)
    requires i + |t| <= |s|
  {
    s[i..i + |t|] == t
  }

  /** `str.contains`: `t` occurs somewhere in `s`. */
  predicate Contains(s: string, t: string) {
    exists i: nat | i + |t| <= |s| :: OccursAt(s, t, i)
  }

  /**
   * `astype(str).str.contains("timeout", na=False)`: only a text cell can contain it, since
   * an integer prints as digits and a missing cell as `nan`.
   */
  predicate IsTimeout(v: Value) {
    v.Text? && Contains(v.s, TimeoutValue)
  }

  predicate IsDigit(c: char) {
    '0' <= c <= '9'
  }

  predicate AllDigits(d: string) {
    forall i :: 0 <= i < |d| ==> IsDigit(d[i])
  }

  /** An optional minus sign followed by at least one digit. */
  predicate IsIntegerText(s: string) {
    var d := if |s| > 0 && s[0] == '-' then s[1..] else s;
    |d| > 0 && AllDigits(d)
  }

  function DigitsValue(d: string): nat
    requires AllDigits(d)
  {
    if d == [] then 0 else 10 * DigitsValue(d[..|d| - 1]) + (d[|d| - 1] as int - '0' as int)
  }

  function ParseInteger(s: string): int
    requires IsIntegerText(s)
  {
    if s[0] == '-' then 0 - DigitsValue(s[1..]) else DigitsValue(s)
  }

  /**
   * `pd.to_numeric(errors='coerce')` on the costs column, which holds integer text or a
   * failure marker: integer text becomes its number, any other text goes missing. The
   * other numeric forms pandas parses ("12.5", "+5", "1e3") are not modelled.
   */
  function ToNumeric(v: Value): Value {
    match v
    case Num(_) => v
    case Missing => Missing
    case Text(s) => if IsIntegerText(s) then Num(ParseInteger(s)) else Missing
  }

  /** The decimal digits of `n`, most significant first. */
  function DigitsOf(n: nat): (d: string)
    ensures |d| > 0 && AllDigits(d)
  {
    if n < 10 then [('0' as int + n) as char] else DigitsOf(n / 10) + [('0' as int + n % 10) as char]
  }

  /** `str(n)` for an integer. */
  function IntText(n: int): string {
    if n < 0 then "-" + DigitsOf(-n) else DigitsOf(n)
  }

  lemma {:induction false} DigitsOfValue(n: nat)
    ensures DigitsValue(DigitsOf(n)) == n
    decreases n
  {
    var d := DigitsOf(n);
    if n >= 10 {
      DigitsOfValue(n / 10);
      assert d[..|d| - 1] == DigitsOf(n / 10);
    }
  }

  /** A number written out as text reads back as that number. */
  lemma ToNumericIntText(n: int)
    ensures IsIntegerText(IntText(n)) && ToNumeric(Text(IntText(n))) == Num(n)
  {
    DigitsOfValue(if n < 0 then -n else n);
    if n < 0 {
      assert IntText(n)[1..] == DigitsOf(-n);
    } else {
      assert DigitsOf(n)[0] != '-';
    }
  }

  /** A failure marker such as `solvefailure` is no number, so it goes missing. */
  lemma ToNumericMarker()
    ensures ToNumeric(Text("solvefailure")) == Missing && ToNumeric(Text("timeout")) == Missing
  {
    assert !IsDigit("solvefailure"[0]);
    assert !IsDigit("timeout"[0]);
  }

  /** The cells of `cols` all set to `v`. */
  function SetAll(r: Row, cols: seq<string>, v: Value): (r': Row)
    ensures r'.Keys == r.Keys + set c | c in cols
    ensures forall c :: Get(r', c) == if c in cols then v else Get(r, c)
    decreases |cols|
  {
    if cols == [] then r else SetAll(r[cols[0] := v], cols[1..], v)
  }

  /** `data['costs'] = pd.to_numeric(data['costs'], errors='coerce')` on one row. */
  function Coerced(r: Row): Row {
    r["costs" := ToNumeric(Get(r, "costs"))]
  }

  /** The two `.loc` assignments on a timed-out row. */
  function Censored(r: Row): Row {
    SetAll(r, ["costs"] + TimeoutColumns, Num(MaxInt))
  }

  /** A row as cleaning leaves it; whether it timed out is decided on the cell as read. */
  function CleanRow(r: Row): Row {
    if IsTimeout(Get(r, "costs")) then Censored(Coerced(r)) else Coerced(r)
  }

  /**
   * A timed-out row has its costs and all seven metrics set to `MAX_INT`; any other row has
   * its costs coerced to a number or missing and its metrics as read; no other column changes,
   * and no column is added to a row that has the required ones.
   */
  lemma CleanRowSpec(r: Row)
    ensures IsTimeout(Get(r, "costs")) ==>
      Get(CleanRow(r), "costs") == Num(MaxInt)
      && forall c :: c in TimeoutColumns ==> Get(CleanRow(r), c) == Num(MaxInt)
    ensures !IsTimeout(Get(r, "costs")) ==>
      Get(CleanRow(r), "costs") == ToNumeric(Get(r, "costs"))
      && forall c :: c in TimeoutColumns ==> Get(CleanRow(r), c) == Get(r, c)
    ensures forall c :: c != "costs" && c !in TimeoutColumns ==> Get(CleanRow(r), c) == Get(r, c)
    ensures (forall c :: c in RequiredColumns ==> c in r) ==> CleanRow(r).Keys == r.Keys
  {
    assert "costs" !in TimeoutColumns;
  }

  /** After cleaning every costs cell is a number or missing. */
  predicate Cleaned(rows: seq<Row>) {
    forall i :: 0 <= i < |rows| ==> !Get(rows[i], "costs").Text?
  }

  /**
   * `load_and_clean_data` on the table `read_csv` produced: a `ValueError` naming the
   * missing required columns, before any cleaning; otherwise the same columns and rows,
   * each row cleaned.
   */
  method LoadAndClean(data: Frame) returns (r: Result<Frame, Raised>)
    ensures r.Err? <==> exists c :: c in RequiredColumns && c !in data.columns
    ensures r.Err? ==> r.error == MissingColumns(MissingFrom(RequiredColumns, data.columns))
    ensures r.Ok? ==> (r.value.columns == data.columns && |r.value.rows| == |data.rows|
      && forall i :: 0 <= i < |data.rows| ==> r.value.rows[i] == CleanRow(data.rows[i]))
    ensures r.Ok? ==> Cleaned(r.value.rows)
  {
    var missing := MissingFrom(RequiredColumns, data.columns);
    if |missing| > 0 {
      assert missing[0] in missing;
      return Err(MissingColumns(missing));
    }
    var rows := data.rows;
    var mask := seq(|rows|, i requires 0 <= i < |rows| => IsTimeout(Get(rows[i], "costs")));
    var i := 0;
    while i < |rows|
      invariant i <= |rows| == |data.rows|
      invariant forall k :: 0 <= k < i ==> rows[k] == Coerced(data.rows[k])
      invariant forall k :: i <= k < |rows| ==> rows[k] == data.rows[k]
    {
      rows := rows[i := Coerced(rows[i])];
      i := i + 1;
    }
    i := 0;
    while i < |rows|
      invariant i <= |rows| == |data.rows|
      invariant forall k :: 0 <= k < i ==> rows[k] == CleanRow(data.rows[k])
      invariant forall k :: i <= k < |rows| ==> rows[k] == Coerced(data.rows[k])
    {
      if mask[i] {
        rows := rows[i := Censored(rows[i])];
      }
      i := i + 1;
    }
    assert Cleaned(rows) by {
      forall k | 0 <= k < |rows|
        ensures !Get(rows[k], "costs").Text?
      {
        CleanRowSpec(data.rows[k]);
      }
    }
    return Ok(Frame(data.columns, rows));
  }

  // ---------------------------------------------------------------------------
  // compute_stats
  // ---------------------------------------------------------------------------

  /** `(P0, P50, P99)`, or three `NaN`s for an empty series. */
  datatype Percentiles = NaNs | Pct(p0: int, p50: int, p99: int)

  /** `dropna`: the cells that are not missing, in order. */
  function DropNa(s: seq<Value>): (r: seq<Value>)
    ensures forall v :: v in r <==> v in s && v != Missing
  {
    if s == [] then [] else (if s[0] == Missing then [] else [s[0]]) + DropNa(s[1..])
  }

  predicate AllNum(s: seq<Value>) {
    forall i :: 0 <= i < |s| ==> s[i].Num?
  }

  function Ints(s: seq<Value>): (r: seq<int>)
    requires AllNum(s)
    ensures |r| == |s| && forall i :: 0 <= i < |s| ==> r[i] == s[i].n
  {
    seq(|s|, i requires 0 <= i < |s| => s[i].n)
  }

  predicate SortedInts(s: seq<int>) {
    forall i, j :: 0 <= i < j < |s| ==> s[i] <= s[j]
  }

  function InsertSorted(x: int, s: seq<int>): (r: seq<int>)
    requires SortedInts(s)
    ensures SortedInts(r) && multiset(r) == multiset(s) + multiset{x}
    ensures forall y :: y in r ==> y == x || y in s
  {
    if s == [] || x <= s[0] then [x] + s
    else
      assert s == [s[0]] + s[1..];
      var t := InsertSorted(x, s[1..]);
      assert forall y :: y in t ==> s[0] <= y by {
        forall y | y in t
          ensures s[0] <= y
        {
          if y != x {
            var k :| 0 <= k < |s[1..]| && s[1..][k] == y;
            assert s[k + 1] == y;
          }
        }
      }
      SortedCons(s[0], t);
      [s[0]] + t
  }

  lemma SortedCons(h: int, t: seq<int>)
    requires SortedInts(t) && forall y :: y in t ==> h <= y
    ensures SortedInts([h] + t)
  {
    var r := [h] + t;
    forall i, j | 0 <= i < j < |r|
      ensures r[i] <= r[j]
    {
      assert r[j] == t[j - 1];
      if i > 0 {
        assert r[i] == t[i - 1];
      } else {
        assert t[j - 1] in t;
      }
    }
  }

  /** The values in ascending order. */
  function Sort(s: seq<int>): (r: seq<int>)
    ensures SortedInts(r) && multiset(r) == multiset(s)
  {
    if s == [] then []
    else
      assert s == [s[0]] + s[1..];
      InsertSorted(s[0], Sort(s[1..]))
  }

  /** `a / 100` rounded to the nearest integer, halves to the even one, as numpy's `nearest` method does. */
  function HalfEven(a: nat): nat {
    var f, rem := a / 100, a % 100;
    if rem < 50 then f else if rem > 50 then f + 1 else if f % 2 == 0 then f else f + 1
  }

  lemma HalfEvenAtMost(a: nat, m: nat)
    requires a <= 100 * m
    ensures HalfEven(a) <= m
  {
  }

  lemma MulAtMost(q: nat, c: nat, m: nat)
    requires q <= c
    ensures q * m <= c * m
  {
    assert (c - q) * m >= 0;
  }

  /** The sorted position the `q`-th percentile of `n` values takes: `q (n - 1) / 100` rounded. */
  function NearestIndex(q: nat, n: nat): (k: nat)
    requires q <= 100 && n > 0
    ensures k < n
  {
    MulAtMost(q, 100, n - 1);
    HalfEvenAtMost(q * (n - 1), n - 1);
    HalfEven(q * (n - 1))
  }

  lemma HalfEvenMonotone(a: nat, a': nat)
    requires a <= a'
    ensures HalfEven(a) <= HalfEven(a')
  {
    var f, f' := a / 100, a' / 100;
    assert f <= f';
    if f < f' {
      assert HalfEven(a) <= f + 1 <= f' <= HalfEven(a');
    }
  }

  lemma NearestIndexMonotone(q: nat, q': nat, n: nat)
    requires q <= q' <= 100 && n > 0
    ensures NearestIndex(q, n) <= NearestIndex(q', n)
  {
    MulAtMost(q, q', n - 1);
    HalfEvenMonotone(q * (n - 1), q' * (n - 1));
  }

  /**
   * `compute_stats`: three `NaN`s for an empty series; otherwise the nearest-rank 0th, 50th
   * and 99th percentiles of its non-missing values, which numpy refuses when there are none.
   */
  function ComputeStats(data: seq<Value>): (r: Result<Percentiles, Raised>)
    ensures r == Ok(NaNs) <==> |data| == 0
  {
    if |data| == 0 then Ok(NaNs)
    else
      var d := DropNa(data);
      if |d| == 0 then Err(EmptyPercentile)
      else if !AllNum(d) then Err(NonNumeric)
      else
        var s := Sort(Ints(d));
        assert |s| == |Ints(d)| by {
          assert |multiset(s)| == |multiset(Ints(d))|;
        }
        Ok(Pct(s[NearestIndex(0, |s|)], s[NearestIndex(50, |s|)], s[NearestIndex(99, |s|)]))
  }

  /**
   * Each percentile is one of the series' values, P0 is their minimum, and
   * P0 <= P50 <= P99.
   */
  lemma ComputeStatsSpec(data: seq<Value>)
    requires ComputeStats(data).Ok? && ComputeStats(data).value.Pct?
    ensures var p := ComputeStats(data).value;
      Num(p.p0) in data && Num(p.p50) in data && Num(p.p99) in data
      && (forall i :: 0 <= i < |data| && data[i].Num? ==> p.p0 <= data[i].n)
      && p.p0 <= p.p50 <= p.p99
  {
    var d := DropNa(data);
    var s := Sort(Ints(d));
    SortSameElements(Ints(d));
    IntsFromData(data, s);
    var i0, i50, i99 := NearestIndex(0, |s|), NearestIndex(50, |s|), NearestIndex(99, |s|);
    assert ComputeStats(data).value == Pct(s[i0], s[i50], s[i99]);
    assert i0 == 0;
    NearestIndexMonotone(0, 50, |s|);
    NearestIndexMonotone(50, 99, |s|);
    SortedAt(s, i0, i50);
    SortedAt(s, i50, i99);
  }

  lemma SortedAt(s: seq<int>, i: nat, j: nat)
    requires SortedInts(s) && i <= j < |s|
    ensures s[i] <= s[j]
  {
    if i < j {
      assert s[i] <= s[j];
    }
  }

  /** Sorting keeps the length and the values. */
  lemma SortSameElements(xs: seq<int>)
    ensures |Sort(xs)| == |xs| && forall x :: x in Sort(xs) <==> x in xs
  {
    var s := Sort(xs);
    assert |multiset(s)| == |multiset(xs)|;
    forall x
      ensures x in s <==> x in xs
    {
      assert x in s <==> x in multiset(s);
      assert x in xs <==> x in multiset(xs);
    }
  }

  /** The sorted values are the series' numbers, and the first is at most each of them. */
  lemma IntsFromData(data: seq<Value>, s: seq<int>)
    requires AllNum(DropNa(data)) && SortedInts(s) && |s| > 0
    requires forall x :: x in s <==> x in Ints(DropNa(data))
    ensures forall x :: x in s ==> Num(x) in data
    ensures forall i :: 0 <= i < |data| && data[i].Num? ==> s[0] <= data[i].n
  {
    var d := DropNa(data);
    forall x | x in s
      ensures Num(x) in data
    {
      IntsMember(d, Num(x));
    }
    forall i | 0 <= i < |data| && data[i].Num?
      ensures s[0] <= data[i].n
    {
      var v := data[i];
      assert v in data && v != Missing;
      IntsMember(d, v);
      var m :| 0 <= m < |s| && s[m] == v.n;
      assert m == 0 || s[0] <= s[m];
    }
  }

  /** A number is among the values exactly when its cell is among the cells. */
  lemma IntsMember(d: seq<Value>, v: Value)
    requires AllNum(d) && v.Num?
    ensures v.n in Ints(d) <==> v in d
  {
    var xs := Ints(d);
    if v.n in xs {
      var k :| 0 <= k < |xs| && xs[k] == v.n;
      assert d[k] == v;
    }
    if v in d {
      var k :| 0 <= k < |d| && d[k] == v;
      assert xs[k] == v.n;
    }
  }

  // ---------------------------------------------------------------------------
  // Groups
  // ---------------------------------------------------------------------------

  /** Every key column holds a value; `groupby` leaves other rows out. */
  predicate Keyed(r: Row, cols: seq<string>) {
    forall i :: 0 <= i < |cols| ==> Get(r, cols[i]) != Missing
  }

  function KeyOf(r: Row, cols: seq<string>): (k: seq<Value>)
    ensures |k| == |cols| && forall i :: 0 <= i < |cols| ==> k[i] == Get(r, cols[i])
  {
    seq(|cols|, i requires 0 <= i < |cols| => Get(r, cols[i]))
  }

  predicate InGroup(r: Row, cols: seq<string>, key: seq<Value>) {
    Keyed(r, cols) && KeyOf(r, cols) == key
  }

  predicate NoDup<T(==)>(s: seq<T>) {
    forall a, b :: 0 <= a < b < |s| ==> s[a] != s[b]
  }

  /** The distinct keys of the first `n` rows, in the order they first appear. */
  function KeysUpTo(rows: seq<Row>, cols: seq<string>, n: nat): seq<seq<Value>>
    requires n <= |rows|
  {
    if n == 0 then []
    else
      var ks := KeysUpTo(rows, cols, n - 1);
      if Keyed(rows[n - 1], cols) && KeyOf(rows[n - 1], cols) !in ks then ks + [KeyOf(rows[n - 1], cols)] else ks
  }

  function GroupKeys(rows: seq<Row>, cols: seq<string>): seq<seq<Value>> {
    KeysUpTo(rows, cols, |rows|)
  }

  /** Row `i` has key `k`. */
  predicate HasKeyAt(rows: seq<Row>, cols: seq<string>, i: nat, k: seq<Value>)
    requires i < |rows|
  {
    InGroup(rows[i], cols, k)
  }

  /** One entry per distinct key of a keyed row, nothing else. */
  lemma {:induction false} KeysUpToSpec(rows: seq<Row>, cols: seq<string>, n: nat)
    requires n <= |rows|
    ensures NoDup(KeysUpTo(rows, cols, n))
    ensures forall k :: k in KeysUpTo(rows, cols, n) <==> exists i :: 0 <= i < n && HasKeyAt(rows, cols, i, k)
    decreases n
  {
    if n > 0 {
      KeysUpToSpec(rows, cols, n - 1);
      var ks := KeysUpTo(rows, cols, n - 1);
      forall k
        ensures k in KeysUpTo(rows, cols, n) <==> exists i :: 0 <= i < n && HasKeyAt(rows, cols, i, k)
      {
        if HasKeyAt(rows, cols, n - 1, k) {
          assert k in KeysUpTo(rows, cols, n);
        }
        if k in KeysUpTo(rows, cols, n) && k !in ks {
          assert HasKeyAt(rows, cols, n - 1, k);
        }
      }
    }
  }

  lemma GroupKeysSpec(rows: seq<Row>, cols: seq<string>)
    ensures NoDup(GroupKeys(rows, cols))
    ensures forall k :: k in GroupKeys(rows, cols) <==> exists i :: 0 <= i < |rows| && HasKeyAt(rows, cols, i, k)
  {
    KeysUpToSpec(rows, cols, |rows|);
  }

  /** The rows of one group, in table order. */
  function Group(rows: seq<Row>, cols: seq<string>, key: seq<Value>): (g: seq<Row>)
    ensures forall r :: r in g <==> r in rows && InGroup(r, cols, key)
  {
    if rows == [] then []
    else (if InGroup(rows[0], cols, key) then [rows[0]] else []) + Group(rows[1..], cols, key)
  }

  /** A key that `GroupKeys` lists has a non-empty group. */
  lemma GroupNonEmpty(rows: seq<Row>, cols: seq<string>, key: seq<Value>)
    requires key in GroupKeys(rows, cols)
    ensures |Group(rows, cols, key)| > 0
  {
    GroupKeysSpec(rows, cols);
    var i :| 0 <= i < |rows| && HasKeyAt(rows, cols, i, key);
    assert rows[i] in Group(rows, cols, key);
  }

  function Column(g: seq<Row>, c: string): (v: seq<Value>)
    ensures |v| == |g| && forall i :: 0 <= i < |g| ==> v[i] == Get(g[i], c)
  {
    seq(|g|, i requires 0 <= i < |g| => Get(g[i], c))
  }

  // ---------------------------------------------------------------------------
  // calculate_solver_stats
  // ---------------------------------------------------------------------------

  const GroupCols: seq<string> := ["solver", "num_agents", "op_PC", "op_BC", "op_TR"]

  /** The seven metrics: the suffix of their output columns and the column they summarise. */
  const Metrics: seq<(string, string)> := [
    ("time", "time(us)"), ("high", "high_level_expanded"), ("lowOpen", "low_level_open_expanded"),
    ("lowFocal", "low_level_focal_expanded"), ("lowOpenMdd", "low_level_mdd_open_expanded"),
    ("lowFocalMdd", "low_level_mdd_focal_expanded"), ("lowTotal", "total_low_level_expanded")]

  /** A run counts as timed out exactly when its time is `MAX_INT`. */
  predicate TimedOut(r: Row) {
    Get(r, "time(us)") == Num(MaxInt)
  }

  function Timeouts(g: seq<Row>): (n: nat)
    ensures n <= |g|
  {
    if g == [] then 0 else (if TimedOut(g[0]) then 1 else 0) + Timeouts(g[1..])
  }

  /** `group_data[~timeouts]`. */
  function Successes(g: seq<Row>): (s: seq<Row>)
    ensures forall r :: r in s <==> r in g && !TimedOut(r)
    ensures |s| + Timeouts(g) == |g|
  {
    if g == [] then [] else (if TimedOut(g[0]) then [] else [g[0]]) + Successes(g[1..])
  }

  /** `(1 - timeouts / len) * 100`. */
  function SuccessRate(g: seq<Row>): real
    requires |g| > 0
  {
    (1.0 - (Timeouts(g) as real) / (|g| as real)) * 100.0
  }

  /** The rate lies in [0, 100]: 100 exactly when no run timed out and 0 exactly when all did. */
  lemma SuccessRateBounds(g: seq<Row>)
    requires |g| > 0
    ensures 0.0 <= SuccessRate(g) <= 100.0
    ensures SuccessRate(g) == 100.0 <==> Timeouts(g) == 0
    ensures SuccessRate(g) == 0.0 <==> Timeouts(g) == |g|
  {
    RatioBounds(Timeouts(g) as real, |g| as real);
  }

  lemma RatioBounds(t: real, n: real)
    requires 0.0 <= t <= n && n > 0.0
    ensures 0.0 <= t / n <= 1.0
    ensures t / n == 0.0 <==> t == 0.0
    ensures t / n == 1.0 <==> t == n
  {
    var x := t / n;
    assert x * n == t;
  }

  /** One output row: the group key, the success rate, and `(P0, P50, P99)` per metric, in `Metrics` order. */
  datatype Summary = Summary(key: seq<Value>, successRate: real, stats: seq<Percentiles>)

  /** The percentiles of the successful runs, metric by metric; the first metric numpy refuses raises. */
  function StatsFrom(success: seq<Row>, ms: seq<(string, string)>): (r: Result<seq<Percentiles>, Raised>)
    ensures r.Ok? ==> (|r.value| == |ms|
      && forall j :: 0 <= j < |ms| ==> Ok(r.value[j]) == ComputeStats(Column(success, ms[j].1)))
    ensures r.Err? <==> exists j :: 0 <= j < |ms| && ComputeStats(Column(success, ms[j].1)).Err?
  {
    if ms == [] then Ok([])
    else
      match ComputeStats(Column(success, ms[0].1))
      case Err(e) => Err(e)
      case Ok(p) =>
        match StatsFrom(success, ms[1..])
        case Err(e) =>
          ghost var j :| 0 <= j < |ms[1..]| && ComputeStats(Column(success, ms[1..][j].1)).Err?;
          assert ms[1..][j] == ms[j + 1];
          Err(e)
        case Ok(ps) => Ok([p] + ps)
  }

  /** The summary of one group of the table. */
  function SummaryOf(key: seq<Value>, g: seq<Row>): Result<Summary, Raised>
    requires |g| > 0
  {
    match StatsFrom(Successes(g), Metrics)
    case Err(e) => Err(e)
    case Ok(ps) => Ok(Summary(key, SuccessRate(g), ps))
  }

  /** `s` is the summary of the non-empty group of `key`. */
  predicate SummaryIs(rows: seq<Row>, key: seq<Value>, s: Summary) {
    |Group(rows, GroupCols, key)| > 0 && Ok(s) == SummaryOf(key, Group(rows, GroupCols, key))
  }

  /**
   * `calculate_solver_stats`: one summary per distinct (solver, num_agents, op_PC, op_BC,
   * op_TR), in the order the keys first appear; the first percentile numpy refuses raises.
   */
  method CalculateSolverStats(rows: seq<Row>) returns (r: Result<seq<Summary>, Raised>)
    ensures var keys := GroupKeys(rows, GroupCols);
      r.Ok? ==> |r.value| == |keys| && SummariesOf(rows, keys, r.value)
    ensures var keys := GroupKeys(rows, GroupCols);
      r.Err? ==> exists i :: 0 <= i < |keys| && |Group(rows, GroupCols, keys[i])| > 0 && SummaryOf(keys[i], Group(rows, GroupCols, keys[i])).Err?
  {
    var keys := GroupKeys(rows, GroupCols);
    var results: seq<Summary> := [];
    while |results| < |keys|
      invariant |results| <= |keys| && SummariesOf(rows, keys, results)
      decreases |keys| - |results|
    {
      var next := SummarizeNext(rows, keys, results);
      if next.Err? {
        return Err(next.error);
      }
      results := next.value;
    }
    return Ok(results);
  }

  /** The summaries `results` belong, in order, to the first `|results|` configurations of `keys`. */
  predicate SummariesOf(rows: seq<Row>, keys: seq<seq<Value>>, results: seq<Summary>)
    requires |results| <= |keys|
  {
    forall k :: 0 <= k < |results| ==> SummaryIs(rows, keys[k], results[k])
  }

  /** One turn of the group loop: summarise the next configuration and append its summary. */
  method SummarizeNext(rows: seq<Row>, keys: seq<seq<Value>>, results: seq<Summary>) returns (r: Result<seq<Summary>, Raised>)
    requires keys == GroupKeys(rows, GroupCols) && |results| < |keys| && SummariesOf(rows, keys, results)
    ensures var i := |results|;
      r.Err? ==> |Group(rows, GroupCols, keys[i])| > 0 && SummaryOf(keys[i], Group(rows, GroupCols, keys[i])).Err?
    ensures r.Ok? ==> |r.value| == |results| + 1 && SummariesOf(rows, keys, r.value) && r.value[..|results|] == results
  {
    var i := |results|;
    var g := Group(rows, GroupCols, keys[i]);
    GroupNonEmpty(rows, GroupCols, keys[i]);
    var summary := Summarize(keys[i], g);
    if summary.Err? {
      return Err(summary.error);
    }
    assert SummaryIs(rows, keys[i], summary.value);
    var next := results + [summary.value];
    forall k | 0 <= k < i + 1
      ensures SummaryIs(rows, keys[k], next[k])
    {
      if k < i {
        assert next[k] == results[k];
      }
    }
    return Ok(next);
  }

  /** The body of the group loop: count the timeouts, then summarise the group. */
  method Summarize(key: seq<Value>, g: seq<Row>) returns (r: Result<Summary, Raised>)
    requires |g| > 0
    ensures r == SummaryOf(key, g)
  {
    var timeouts := 0;
    var j := 0;
    while j < |g|
      invariant j <= |g| && timeouts == Timeouts(g[..j])
    {
      TakeNext(g, j);
      TimeoutsAppend(g[..j], g[j]);
      if Get(g[j], "time(us)") == Num(MaxInt) {
        timeouts := timeouts + 1;
      }
      j := j + 1;
    }
    TakeAll(g);
    var rate := (1.0 - (timeouts as real) / (|g| as real)) * 100.0;
    var stats := StatsFrom(Successes(g), Metrics);
    if stats.Err? {
      return Err(stats.error);
    }
    return Ok(Summary(key, rate, stats.value));
  }

  lemma {:induction false} TimeoutsAppend(g: seq<Row>, r: Row)
    ensures Timeouts(g + [r]) == Timeouts(g) + (if TimedOut(r) then 1 else 0)
    decreases |g|
  {
    if g != [] {
      DropSnoc(g, r);
      TimeoutsAppend(g[1..], r);
    }
  }

  /**
   * A summary carries its group's key and success rate, and every percentile of a metric is
   * taken over the runs that did not time out, so none of them is a censored `MAX_INT` time.
   */
  lemma SummaryOfSpec(key: seq<Value>, g: seq<Row>)
    requires |g| > 0 && SummaryOf(key, g).Ok?
    ensures var s := SummaryOf(key, g).value;
      s.key == key && 0.0 <= s.successRate <= 100.0 && |s.stats| == |Metrics|
      && s.stats[0] == ComputeStats(Column(Successes(g), "time(us)")).value
      && (s.stats[0].Pct? ==> s.stats[0].p99 != MaxInt || exists r :: r in g && !TimedOut(r) && Get(r, "time(us)") == Num(MaxInt))
  {
    SuccessRateBounds(g);
    var s := SummaryOf(key, g).value;
    if s.stats[0].Pct? {
      ComputeStatsSpec(Column(Successes(g), "time(us)"));
    }
  }

  // ---------------------------------------------------------------------------
  // check_solver_costs
  // ---------------------------------------------------------------------------

  const CheckCols: seq<string> := ["num_agents", "seed", "op_PC", "op_BC", "op_TR"]

  /** A logged warning: cbs costs that disagree, or a solver beating cbs, with the configuration. */
  datatype Warning = Inconsistent(config: seq<Value>, costs: seq<Value>) | Discrepancy(solver: Value, config: seq<Value>)

  const Cbs: Value := Text("cbs")

  /** `==` of a text cell with a value: a missing cell (NaN) equals nothing, not even another missing one. */
  predicate SameCell(a: Value, b: Value) {
    a == b && a != Missing
  }

  /**
   * `group[group['solver'] == solver]`: the rows whose solver cell equals `solver`. For a
   * missing `solver`, which `unique()` lists as NaN, the mask selects no row.
   */
  function RowsOf(g: seq<Row>, solver: Value): (s: seq<Row>)
    ensures forall r :: r in s <==> r in g && Get(r, "solver") == solver && solver != Missing
    ensures solver == Missing ==> s == []
  {
    if g == [] then [] else (if SameCell(Get(g[0], "solver"), solver) then [g[0]] else []) + RowsOf(g[1..], solver)
  }

  /** A group is skipped when it has no cbs row, or every cbs cost is `MAX_INT`. */
  predicate Skipped(g: seq<Row>) {
    var cbs := RowsOf(g, Cbs);
    |cbs| == 0 || forall r :: r in cbs ==> Get(r, "costs") == Num(MaxInt)
  }

  /** `cbs_data['costs'] != MAX_INT`: a missing cost is not `MAX_INT`, so it counts as a success here. */
  function SuccessRuns(cbs: seq<Row>): (s: seq<Row>)
    ensures forall r :: r in s <==> r in cbs && Get(r, "costs") != Num(MaxInt)
  {
    if cbs == [] then [] else (if Get(cbs[0], "costs") != Num(MaxInt) then [cbs[0]] else []) + SuccessRuns(cbs[1..])
  }

  /** `==` on two cells: a missing cell equals nothing, not even another missing cell. */
  predicate SameNum(a: Value, b: Value) {
    a.Num? && b.Num? && a.n == b.n
  }

  /** `<` on two cells, false when either is missing. */
  predicate LessNum(a: Value, b: Value) {
    a.Num? && b.Num? && a.n < b.n
  }

  /** `unique()`: the distinct cells, in the order they first appear. */
  function Unique(s: seq<Value>): (u: seq<Value>)
    ensures forall v :: v in u <==> v in s
    ensures NoDup(u)
  {
    if s == [] then []
    else
      var rest := Unique(s[..|s| - 1]);
      assert forall v :: v in s <==> v in s[..|s| - 1] || v == s[|s| - 1] by {
        assert s == s[..|s| - 1] + [s[|s| - 1]];
      }
      if s[|s| - 1] in rest then rest else rest + [s[|s| - 1]]
  }

  /** `min()` over the numeric cells, or none when every cell is missing. */
  function MinNum(s: seq<Value>): (m: Option<int>)
    ensures m.None? <==> forall i :: 0 <= i < |s| ==> !s[i].Num?
    ensures m.Some? ==> Num(m.value) in s && forall i :: 0 <= i < |s| && s[i].Num? ==> m.value <= s[i].n
  {
    if s == [] then None
    else
      var rest := MinNum(s[1..]);
      assert forall i :: 1 <= i < |s| ==> s[i] == s[1..][i - 1];
      if !s[0].Num? then rest
      else if rest.None? || s[0].n <= rest.value then Some(s[0].n)
      else rest
  }

  /** Some cell of `costs` is a number below `m`. */
  predicate AnyBelow(costs: seq<Value>, m: Option<int>) {
    m.Some? && exists i :: 0 <= i < |costs| && LessNum(costs[i], Num(m.value))
  }

  /** Some cost differs from the first: `len(success) > 0 and not (success == success[0]).all()`. */
  predicate CostsDisagree(success: seq<Value>) {
    |success| > 0 && exists i :: 0 <= i < |success| && !SameNum(success[i], success[0])
  }

  /** The warning for a lack of agreement among the successful cbs runs, if any. */
  function ConsistencyWarning(key: seq<Value>, g: seq<Row>): seq<Warning>
    requires !Skipped(g)
  {
    var success := Column(SuccessRuns(RowsOf(g, Cbs)), "costs");
    if CostsDisagree(success) then [Inconsistent(key, Unique(success))]
    else []
  }

  /** The discrepancy warnings for the solvers `solvers`, in that order. */
  function DiscrepancyWarnings(key: seq<Value>, g: seq<Row>, solvers: seq<Value>, cbsMin: Option<int>): seq<Warning>
  {
    if solvers == [] then []
    else
      var solverData := RowsOf(g, solvers[0]);
      var w := if solvers[0] != Cbs && solverData != [] && AnyBelow(Column(solverData, "costs"), cbsMin)
        then [Discrepancy(solvers[0], key)] else [];
      w + DiscrepancyWarnings(key, g, solvers[1..], cbsMin)
  }

  /** The warnings of one group, as the commented intent of lines 98-105 has it. */
  function GroupWarnings(key: seq<Value>, g: seq<Row>): seq<Warning> {
    if Skipped(g) then []
    else
      ConsistencyWarning(key, g)
      + DiscrepancyWarnings(key, g, Unique(Column(g, "solver")), MinNum(Column(RowsOf(g, Cbs), "costs")))
  }

  function WarningsFrom(rows: seq<Row>, keys: seq<seq<Value>>): seq<Warning> {
    if keys == [] then [] else GroupWarnings(keys[0], Group(rows, CheckCols, keys[0])) + WarningsFrom(rows, keys[1..])
  }

  lemma {:induction false} WarningsFromAppend(rows: seq<Row>, keys: seq<seq<Value>>, k: seq<Value>)
    ensures WarningsFrom(rows, keys + [k]) == WarningsFrom(rows, keys) + GroupWarnings(k, Group(rows, CheckCols, k))
    decreases |keys|
  {
    if keys != [] {
      DropSnoc(keys, k);
      WarningsFromAppend(rows, keys[1..], k);
    }
  }

  /**
   * `check_solver_costs` with the consistency check as its comment intends: per configuration,
   * a warning when the successful cbs costs disagree, and one per other solver with a cost
   * below the cheapest cbs cost. Nothing is raised.
   */
  method CheckSolverCosts(rows: seq<Row>) returns (warnings: seq<Warning>)
    ensures warnings == WarningsFrom(rows, GroupKeys(rows, CheckCols))
  {
    var keys := GroupKeys(rows, CheckCols);
    warnings := [];
    var i := 0;
    while i < |keys|
      invariant i <= |keys| && warnings == WarningsFrom(rows, keys[..i])
    {
      var found := CheckGroup(keys[i], Group(rows, CheckCols, keys[i]));
      WarningsFromAppend(rows, keys[..i], keys[i]);
      TakeNext(keys, i);
      warnings := warnings + found;
      i := i + 1;
    }
    TakeAll(keys);
  }

  /** The body of the group loop for the group `g` of configuration `key`. */
  method CheckGroup(key: seq<Value>, g: seq<Row>) returns (found: seq<Warning>)
    ensures found == GroupWarnings(key, g)
  {
    var cbs := RowsOf(g, Cbs);
    if |cbs| == 0 || forall r :: r in cbs ==> Get(r, "costs") == Num(MaxInt) {
      return [];
    }
    var cbsMin := MinNum(Column(cbs, "costs"));
    var discrepancies := Discrepancies(key, g, Unique(Column(g, "solver")), cbsMin);
    found := ConsistencyWarning(key, g) + discrepancies;
  }

  /** The loop over the group's solvers, in the order they first appear. */
  method Discrepancies(key: seq<Value>, g: seq<Row>, solvers: seq<Value>, cbsMin: Option<int>) returns (found: seq<Warning>)
    ensures found == DiscrepancyWarnings(key, g, solvers, cbsMin)
  {
    found := [];
    var j := 0;
    while j < |solvers|
      invariant j <= |solvers|
      invariant found == DiscrepancyWarnings(key, g, solvers[..j], cbsMin)
    {
      DiscrepancyWarningsAppend(key, g, solvers[..j], solvers[j], cbsMin);
      TakeNext(solvers, j);
      if solvers[j] != Cbs {
        var solverData := RowsOf(g, solvers[j]);
        if solverData != [] && AnyBelow(Column(solverData, "costs"), cbsMin) {
          found := found + [Discrepancy(solvers[j], key)];
        }
      }
      j := j + 1;
    }
    TakeAll(solvers);
  }

  lemma {:induction false} DiscrepancyWarningsAppend(key: seq<Value>, g: seq<Row>, solvers: seq<Value>, s: Value, cbsMin: Option<int>)
    ensures DiscrepancyWarnings(key, g, solvers + [s], cbsMin)
      == DiscrepancyWarnings(key, g, solvers, cbsMin)
         + (if s != Cbs && RowsOf(g, s) != [] && AnyBelow(Column(RowsOf(g, s), "costs"), cbsMin)
            then [Discrepancy(s, key)] else [])
    decreases |solvers|
  {
    if solvers != [] {
      DropSnoc(solvers, s);
      DiscrepancyWarningsAppend(key, g, solvers[1..], s, cbsMin);
    }
  }

  lemma {:induction false} DiscrepancyWarningsSpec(key: seq<Value>, g: seq<Row>, solvers: seq<Value>, cbsMin: Option<int>, s: Value)
    ensures Discrepancy(s, key) in DiscrepancyWarnings(key, g, solvers, cbsMin)
      <==> s in solvers && s != Cbs && s != Missing && AnyBelow(Column(RowsOf(g, s), "costs"), cbsMin)
    ensures forall w :: w in DiscrepancyWarnings(key, g, solvers, cbsMin) ==> w.Discrepancy?
    decreases |solvers|
  {
    if solvers != [] {
      DiscrepancyWarningsSpec(key, g, solvers[1..], cbsMin, s);
      assert s in solvers <==> s == solvers[0] || s in solvers[1..] by {
        assert solvers == [solvers[0]] + solvers[1..];
      }
    }
  }

  /** The solvers a group lists are exactly those with a row in it. */
  lemma SolversOfGroup(g: seq<Row>, s: Value)
    ensures s in Unique(Column(g, "solver")) <==> exists r :: r in g && Get(r, "solver") == s
  {
    if s in Column(g, "solver") {
      var i :| 0 <= i < |g| && Column(g, "solver")[i] == s;
      assert g[i] in g;
    }
    if r :| r in g && Get(r, "solver") == s {
      var i :| 0 <= i < |g| && g[i] == r;
      assert Column(g, "solver")[i] == s;
    }
  }

  /** A skipped group warns about nothing. */
  lemma GroupWarningsSkipped(key: seq<Value>, g: seq<Row>)
    requires Skipped(g)
    ensures GroupWarnings(key, g) == []
  {
  }

  /**
   * A solver other than cbs is reported for a group that is not skipped exactly when it has
   * a row there and one of its costs is below the cheapest cbs cost.
   */
  lemma GroupDiscrepancySpec(key: seq<Value>, g: seq<Row>, s: Value)
    ensures Discrepancy(s, key) in GroupWarnings(key, g) <==>
      (!Skipped(g) && s != Cbs && s != Missing && (exists r :: r in g && Get(r, "solver") == s)
       && AnyBelow(Column(RowsOf(g, s), "costs"), MinNum(Column(RowsOf(g, Cbs), "costs"))))
  {
    if !Skipped(g) {
      var solvers := Unique(Column(g, "solver"));
      var cbsMin := MinNum(Column(RowsOf(g, Cbs), "costs"));
      var c := ConsistencyWarning(key, g);
      var d := DiscrepancyWarnings(key, g, solvers, cbsMin);
      assert GroupWarnings(key, g) == c + d;
      assert Discrepancy(s, key) !in c;
      DiscrepancyWarningsSpec(key, g, solvers, cbsMin, s);
      SolversOfGroup(g, s);
    }
  }

  /** A row without a solver cell is never reported, however low its cost: its mask is empty. */
  lemma MissingSolverNeverReported(key: seq<Value>, g: seq<Row>)
    ensures Discrepancy(Missing, key) !in GroupWarnings(key, g)
  {
    GroupDiscrepancySpec(key, g, Missing);
  }

  /**
   * A group that is not skipped gets the consistency warning exactly when some successful
   * cbs cost differs from the first one.
   */
  lemma GroupInconsistentSpec(key: seq<Value>, g: seq<Row>)
    ensures (exists w :: w in GroupWarnings(key, g) && w.Inconsistent?) <==>
      (!Skipped(g) && CostsDisagree(Column(SuccessRuns(RowsOf(g, Cbs)), "costs")))
  {
    if !Skipped(g) {
      var solvers := Unique(Column(g, "solver"));
      var cbsMin := MinNum(Column(RowsOf(g, Cbs), "costs"));
      var c := ConsistencyWarning(key, g);
      var d := DiscrepancyWarnings(key, g, solvers, cbsMin);
      assert GroupWarnings(key, g) == c + d;
      DiscrepancyWarningsSpec(key, g, solvers, cbsMin, Cbs);
      if CostsDisagree(Column(SuccessRuns(RowsOf(g, Cbs)), "costs")) {
        assert c[0] in c + d && c[0].Inconsistent?;
      } else {
        assert c == [];
        assert forall w :: w in c + d ==> w in d;
      }
    }
  }

  /**
   * `check_solver_costs` as written: line 102 indexes the boolean mask `success_runs` by the
   * label `'costs'`, which a mask indexed by row numbers does not have, so the first group that
   * is not skipped raises a `KeyError`.
   */
  function CheckSolverCostsAsWritten(rows: seq<Row>): (r: Result<seq<Warning>, Raised>)
    ensures r.Err? <==> exists k :: k in GroupKeys(rows, CheckCols) && !Skipped(Group(rows, CheckCols, k))
    ensures r.Err? ==> r.error == KeyError("costs")
    ensures r.Ok? ==> r.value == [] == WarningsFrom(rows, GroupKeys(rows, CheckCols))
  {
    if exists k :: k in GroupKeys(rows, CheckCols) && !Skipped(Group(rows, CheckCols, k))
    then Err(KeyError("costs"))
    else
      SkippedWarnNothing(rows, GroupKeys(rows, CheckCols));
      Ok([])
  }

  /** When every group is skipped, the intended check warns about nothing either. */
  lemma {:induction false} SkippedWarnNothing(rows: seq<Row>, keys: seq<seq<Value>>)
    requires forall k :: k in keys ==> Skipped(Group(rows, CheckCols, k))
    ensures WarningsFrom(rows, keys) == []
    decreases |keys|
  {
    if keys != [] {
      assert keys[0] in keys;
      SkippedWarnNothing(rows, keys[1..]);
    }
  }

  /** One successful cbs run is enough to make the function as written raise. */
  lemma AsWrittenRaises()
    ensures var row := map["num_agents" := Num(2), "seed" := Num(0), "op_PC" := Num(0), "op_BC" := Num(0),
                           "op_TR" := Num(0), "solver" := Cbs, "costs" := Num(10)];
      CheckSolverCostsAsWritten([row]) == Err(KeyError("costs"))
  {
    var row := map["num_agents" := Num(2), "seed" := Num(0), "op_PC" := Num(0), "op_BC" := Num(0),
                   "op_TR" := Num(0), "solver" := Cbs, "costs" := Num(10)];
    assert HasKeyAt([row], CheckCols, 0, KeyOf(row, CheckCols));
    GroupKeysSpec([row], CheckCols);
    var g := Group([row], CheckCols, KeyOf(row, CheckCols));
    assert row in g;
    assert row in RowsOf(g, Cbs);
  }
}
