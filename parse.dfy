/**
 * The pieces of Rust's standard library the scenario loaders use on each line:
 * `str::split_whitespace`, `str::parse::<usize>` and `str::parse::<f64>`,
 * and indexing a field then unwrapping its parse.
 */
module Parse {
  import opened Wrappers
  import opened Common

  /** `char::is_whitespace`: the characters with the Unicode White_Space property. */
  predicate IsWhitespace(c: char) {
    var n := c as int;
    (0x09 <= n <= 0x0D) || n == 0x20 || n == 0x85 || n == 0xA0 || n == 0x1680
    || (0x2000 <= n <= 0x200A) || n == 0x2028 || n == 0x2029 || n == 0x202F || n == 0x205F
    || n == 0x3000
  }

  /** What `split_whitespace` yields: a non-empty run of non-whitespace characters. */
  predicate IsToken(t: string) {
    |t| > 0 && forall i :: 0 <= i < |t| ==> !IsWhitespace(t[i])
  }

  /** The length of the leading run of non-whitespace characters. */
  function WordLen(s: string): (n: nat)
    ensures n <= |s| && forall i :: 0 <= i < n ==> !IsWhitespace(s[i])
    ensures n < |s| ==> IsWhitespace(s[n])
  {
    if s == [] || IsWhitespace(s[0]) then 0
    else
      var m := WordLen(s[1..]);
      assert forall i :: 0 < i <= m ==> s[i] == s[1..][i - 1];
      1 + m
  }

  /** `line.split_whitespace().collect()`. */
  function SplitWhitespace(s: string): (ts: seq<string>)
    ensures forall i :: 0 <= i < |ts| ==> IsToken(ts[i])
    decreases |s|
  {
    if s == [] then []
    else if IsWhitespace(s[0]) then SplitWhitespace(s[1..])
    else
      var n := WordLen(s);
      [s[..n]] + SplitWhitespace(s[n..])
  }

  /** The tokens written out with one space between each two. */
  function JoinSpaced(ts: seq<string>): string {
    if ts == [] then ""
    else if |ts| == 1 then ts[0]
    else ts[0] + " " + JoinSpaced(ts[1..])
  }

  lemma WordLenOfToken(t: string, rest: string)
    requires IsToken(t) && (rest == [] || IsWhitespace(rest[0]))
    ensures WordLen(t + rest) == |t|
  {
    var s := t + rest;
    var n := WordLen(s);
    assert rest != [] ==> s[|t|] == rest[0];
  }

  /** Splitting the spaced-out tokens gives the tokens back. */
  lemma {:induction false} SplitJoined(ts: seq<string>)
    requires forall i :: 0 <= i < |ts| ==> IsToken(ts[i])
    ensures SplitWhitespace(JoinSpaced(ts)) == ts
  {
    if |ts| == 1 {
      var t := ts[0];
      WordLenOfToken(t, "");
      assert t + "" == t && t[..|t|] == t && t[|t|..] == [];
    } else if |ts| > 1 {
      var t, rest := ts[0], JoinSpaced(ts[1..]);
      var s := t + " " + rest;
      assert s == t + (" " + rest);
      WordLenOfToken(t, " " + rest);
      assert s[..|t|] == t && s[|t|..] == " " + rest && (" " + rest)[1..] == rest;
      SplitJoined(ts[1..]);
    }
  }

  predicate IsDigit(c: char) {
    '0' <= c <= '9'
  }

  predicate AllDigits(s: string) {
    forall i :: 0 <= i < |s| ==> IsDigit(s[i])
  }

  /** The number an ASCII digit string denotes. */
  function DigitsValue(s: string): nat
    requires AllDigits(s)
  {
    if s == [] then 0 else DigitsValue(s[..|s| - 1]) * 10 + (s[|s| - 1] as int - '0' as int)
  }

  /**
   * `s.parse::<usize>()`: an optional `+`, then one or more ASCII digits whose value fits
   * in `usize`; `None` for anything else (empty, a sign alone, `-`, another character, overflow).
   */
  function ParseUsize(s: string): (r: Option<nat>)
    ensures r.Some? ==> r.value <= UsizeMax
  {
    var body := if |s| > 0 && s[0] == '+' then s[1..] else s;
    if |body| > 0 && AllDigits(body) && DigitsValue(body) <= UsizeMax then Some(DigitsValue(body)) else None
  }

  /** The decimal digits of `n`, most significant first, without leading zeros. */
  function NatToString(n: nat): (s: string)
    ensures |s| > 0 && AllDigits(s)
  {
    var d := ['0' + ((n % 10) as char)];
    if n < 10 then d else NatToString(n / 10) + d
  }

  lemma {:induction false} NatToStringValue(n: nat)
    ensures DigitsValue(NatToString(n)) == n
  {
    var s := NatToString(n);
    if n >= 10 {
      NatToStringValue(n / 10);
      assert s[..|s| - 1] == NatToString(n / 10);
    }
  }

  /** Parsing the decimal text of any `usize` gives it back. */
  lemma ParseUsizeOfString(n: nat)
    requires n <= UsizeMax
    ensures ParseUsize(NatToString(n)) == Some(n)
  {
    NatToStringValue(n);
  }

  /** The position of the first `.` in `s`, or `|s|` when there is none. */
  function DotIndex(s: string): (k: nat)
    ensures k <= |s| && forall i :: 0 <= i < k ==> s[i] != '.'
    ensures k < |s| ==> s[k] == '.'
  {
    if s == [] || s[0] == '.' then 0
    else
      var m := DotIndex(s[1..]);
      assert forall i :: 0 < i <= m ==> s[i] == s[1..][i - 1];
      1 + m
  }

  function Pow10(n: nat): (p: nat)
    ensures p >= 1
  {
    if n == 0 then 1 else 10 * Pow10(n - 1)
  }

  /**
   * An unsigned plain decimal: digits, and at most one `.` followed by digits, with at
   * least one digit in all. The value is exact.
   */
  function UnsignedDecimal(body: string): (r: Option<real>)
    ensures r.Some? ==> r.value >= 0.0
  {
    var k := DotIndex(body);
    var whole := body[..k];
    var frac := if k < |body| then body[k + 1..] else "";
    if AllDigits(whole) && AllDigits(frac) && |whole| + |frac| > 0 then Some(DecimalValue(whole, frac))
    else None
  }

  /** The value of the decimal `whole.frac`. */
  function DecimalValue(whole: string, frac: string): (v: real)
    requires AllDigits(whole) && AllDigits(frac)
    ensures v >= 0.0
  {
    DigitsValue(whole) as real + DigitsValue(frac) as real / Pow10(|frac|) as real
  }

  /** An `f64` as `str::parse` produces it: a finite value, an infinity, or NaN. */
  datatype F64 = Finite(value: real) | Infinite(negative: bool) | NaN

  /** The position of the first `e` or `E` in `s`, or `|s|` when there is none. */
  function ExpIndex(s: string): (k: nat)
    ensures k <= |s| && forall i :: 0 <= i < k ==> s[i] != 'e' && s[i] != 'E'
    ensures k < |s| ==> s[k] == 'e' || s[k] == 'E'
  {
    if s == [] || s[0] == 'e' || s[0] == 'E' then 0
    else
      var m := ExpIndex(s[1..]);
      assert forall i :: 0 < i <= m ==> s[i] == s[1..][i - 1];
      1 + m
  }

  /** The exponent after `e`: an optional sign, then one or more digits, as (negative, magnitude). */
  function Exponent(s: string): (r: Option<(bool, nat)>)
    ensures r.Some? ==> |s| > 0 && (r.value.0 <==> s[0] == '-')
  {
    var digits := if |s| > 0 && (s[0] == '+' || s[0] == '-') then s[1..] else s;
    if |digits| > 0 && AllDigits(digits) then Some((s[0] == '-', DigitsValue(digits)))
    else None
  }

  /** `m` times ten to the power `n`, or divided by it when `down`. */
  function Scaled(m: real, down: bool, n: nat): (v: real)
    requires m >= 0.0
    ensures v >= 0.0
  {
    if down then m / Pow10(n) as real else m * Pow10(n) as real
  }

  /** An unsigned decimal, then optionally `e` or `E` and an exponent. */
  function UnsignedNumber(body: string): (r: Option<real>)
    ensures r.Some? ==> r.value >= 0.0
  {
    var k := ExpIndex(body);
    match UnsignedDecimal(body[..k])
    case None => None
    case Some(m) =>
      if k == |body| then Some(m)
      else match Exponent(body[k + 1..])
        case None => None
        case Some(e) => Some(Scaled(m, e.0, e.1))
  }

  /** ASCII upper-case letters to lower case; every other character unchanged. */
  function AsciiLower(c: char): char {
    if 'A' <= c <= 'Z' then (c as int + 32) as char else c
  }

  /** `s` spells `word` (given in lower case) in any mix of cases. */
  predicate Spells(s: string, word: string) {
    |s| == |word| && forall i :: 0 <= i < |s| ==> AsciiLower(s[i]) == word[i]
  }

  /**
   * `s.parse::<f64>()`: an optional sign, then `inf`, `infinity` or `nan` in any case, or an
   * unsigned number. A finite value is exact: `f64` rounding and overflow are not modelled.
   */
  function ParseF64(s: string): (r: Option<F64>)
    ensures r.Some? ==> |s| > 0 && (s[0] == '+' || s[0] == '-' ==> |s| > 1)
    ensures r.Some? && r.value.Infinite? ==> (r.value.negative <==> s[0] == '-')
    ensures r.Some? && r.value.Finite? ==> (r.value.value < 0.0 ==> s[0] == '-')
  {
    var negative := |s| > 0 && s[0] == '-';
    var body := if |s| > 0 && (s[0] == '+' || s[0] == '-') then s[1..] else s;
    if Spells(body, "inf") || Spells(body, "infinity") then Some(Infinite(negative))
    else if Spells(body, "nan") then Some(NaN)
    else match UnsignedNumber(body)
      case None => None
      case Some(v) => Some(Finite(if negative then -v else v))
  }

  lemma UnsignedDecimalOfDigits(s: string)
    requires |s| > 0 && AllDigits(s)
    ensures UnsignedDecimal(s) == Some(DigitsValue(s) as real)
  {
    assert forall i :: 0 <= i < |s| ==> s[i] != '.' by {
      forall i | 0 <= i < |s| ensures s[i] != '.' { assert IsDigit(s[i]); }
    }
    var k := DotIndex(s);
    assert k == |s|;
    assert s[..k] == s;
    assert DecimalValue(s, "") == DigitsValue(s) as real;
  }

  /** A digit string reads as the same number whether parsed as `usize` or as `f64`. */
  lemma ParseF64OfDigits(s: string)
    requires |s| > 0 && AllDigits(s)
    ensures ParseF64(s) == Some(Finite(DigitsValue(s) as real))
    ensures DigitsValue(s) <= UsizeMax ==> ParseUsize(s) == Some(DigitsValue(s))
  {
    assert IsDigit(s[0]);
    UnsignedDecimalOfDigits(s);
    DigitsPlain(s);
  }

  /** A digit string has no exponent marker and spells no word. */
  lemma DigitsPlain(s: string)
    requires |s| > 0 && AllDigits(s)
    ensures ExpIndex(s) == |s| && s[..|s|] == s
    ensures !Spells(s, "inf") && !Spells(s, "infinity") && !Spells(s, "nan")
  {
    forall i | 0 <= i < |s| ensures s[i] != 'e' && s[i] != 'E' { assert IsDigit(s[i]); }
    assert IsDigit(s[0]) && AsciiLower(s[0]) == s[0];
  }

  /**
   * Scientific notation: digits, `e` or `E`, an optional sign and digits denote the
   * mantissa times ten to the exponent.
   */
  lemma {:induction false} ParseF64Scientific(m: string, marker: char, sign: string, e: string)
    requires |m| > 0 && AllDigits(m) && |e| > 0 && AllDigits(e)
    requires marker == 'e' || marker == 'E'
    requires sign == "" || sign == "+" || sign == "-"
    ensures ParseF64(m + [marker] + sign + e)
         == Some(Finite(Scaled(DigitsValue(m) as real, sign == "-", DigitsValue(e))))
  {
    var s := m + [marker] + (sign + e);
    assert m + [marker] + sign + e == s;
    ExponentOf(sign, e);
    var v := Scaled(DigitsValue(m) as real, sign == "-", DigitsValue(e));
    assert ParseF64(s) == Some(Finite(v)) by {
      MarkerSplit(m, marker, sign + e);
      UnsignedDecimalOfDigits(m);
      assert UnsignedNumber(s) == Some(v);
    }
  }

  /** The mantissa before the first marker, and what follows it. */
  lemma MarkerSplit(m: string, marker: char, rest: string)
    requires |m| > 0 && AllDigits(m)
    requires marker == 'e' || marker == 'E'
    ensures var s := m + [marker] + rest;
      ExpIndex(s) == |m| && s[..|m|] == m && s[|m| + 1..] == rest
      && s[0] != '+' && s[0] != '-'
      && !Spells(s, "inf") && !Spells(s, "infinity") && !Spells(s, "nan")
  {
    var s := m + [marker] + rest;
    assert IsDigit(s[0]) && s[0] == m[0];
    assert AsciiLower(s[0]) == s[0];
    forall i | 0 <= i < |m| ensures s[i] != 'e' && s[i] != 'E' { assert s[i] == m[i] && IsDigit(m[i]); }
    assert s[|m|] == marker;
    assert s[..|m|] == m;
    assert s[|m| + 1..] == rest;
  }

  /** The exponent an optional sign and digits denote. */
  lemma ExponentOf(sign: string, e: string)
    requires |e| > 0 && AllDigits(e)
    requires sign == "" || sign == "+" || sign == "-"
    ensures Exponent(sign + e) == Some((sign == "-", DigitsValue(e)))
  {
    if sign == "" {
      assert sign + e == e;
      assert IsDigit(e[0]);
    } else {
      assert (sign + e)[1..] == e;
    }
  }

  /** The special words: `inf` and `infinity` carry the sign, `nan` does not. */
  lemma ParseF64Words()
    ensures ParseF64("inf") == Some(Infinite(false)) && ParseF64("-Infinity") == Some(Infinite(true))
    ensures ParseF64("+INF") == Some(Infinite(false)) && ParseF64("NaN") == Some(NaN)
    ensures ParseF64("-nan") == Some(NaN)
  {
    assert Spells("inf", "inf");
    assert Spells("Infinity", "infinity");
    assert Spells("INF", "inf");
    assert Spells("NaN", "nan");
    assert Spells("nan", "nan");
  }

  /** A sign alone, a dot alone, or an exponent without digits is not an `f64`. */
  lemma ParseF64Rejects()
    ensures ParseF64("") == None && ParseF64("-") == None && ParseF64(".") == None
    ensures ParseF64("1e") == None && ParseF64("e5") == None
  {
    assert ExpIndex("1e") == 1 && "1e"[..1] == "1" && "1e"[2..] == "";
    assert ExpIndex("e5") == 0 && "e5"[..0] == "";
    assert !Spells("1e", "inf") && !Spells("e5", "inf");
  }

  /** `parts[i].parse::<usize>().unwrap()`: out of range or not a `usize` panics. */
  function UsizeAt(parts: seq<string>, i: nat): (r: Result<nat, Panic>)
    ensures r.Ok? <==> i < |parts| && ParseUsize(parts[i]).Some?
    ensures r.Ok? ==> r.value == ParseUsize(parts[i]).value
    ensures r.Err? ==> r.error == (if i < |parts| then UnwrapErr else IndexOutOfBounds)
  {
    if i >= |parts| then Err(IndexOutOfBounds)
    else match ParseUsize(parts[i])
      case Some(v) => Ok(v)
      case None => Err(UnwrapErr)
  }

  /** `parts[i].parse::<f64>().unwrap()`. */
  function RealAt(parts: seq<string>, i: nat): (r: Result<F64, Panic>)
    ensures r.Ok? <==> i < |parts| && ParseF64(parts[i]).Some?
    ensures r.Ok? ==> r.value == ParseF64(parts[i]).value
    ensures r.Err? ==> r.error == (if i < |parts| then UnwrapErr else IndexOutOfBounds)
  {
    if i >= |parts| then Err(IndexOutOfBounds)
    else match ParseF64(parts[i])
      case Some(v) => Ok(v)
      case None => Err(UnwrapErr)
  }
}
