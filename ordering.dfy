/**
 * Rust's `std::cmp::Ordering` and the lexicographic orders that `#[derive(Ord)]`,
 * `Vec::cmp`, tuple comparison and `then_with` build from it.
 *
 * Every derived or lexicographic order of the source is modelled as the order of a
 * `Key`: a number, or a sequence of keys compared lexicographically (a proper prefix
 * is smaller). A struct becomes the sequence of its fields, an enum variant the
 * sequence of its index followed by its fields, a `Vec` the sequence of its items.
 * `CmpKey` is a total order, so one proof serves every such order.
 */
module Ordering {
  datatype Ordering = Less | Equal | Greater

  /** `Ordering::reverse`. */
  function Reverse(o: Ordering): (r: Ordering)
    ensures (r == Less) == (o == Greater) && (r == Greater) == (o == Less)
  {
    match o
    case Less => Greater
    case Equal => Equal
    case Greater => Less
  }

  /** `Ordering::then` / `then_with`: the second comparison breaks a tie of the first. */
  function Then(o: Ordering, next: Ordering): (r: Ordering)
    ensures o != Equal ==> r == o
    ensures o == Equal ==> r == next
  {
    if o == Equal then next else o
  }

  /** `usize::cmp`. */
  function CmpNat(a: int, b: int): (r: Ordering)
    ensures (r == Less) == (a < b) && (r == Equal) == (a == b) && (r == Greater) == (a > b)
  {
    if a < b then Less else if a == b then Equal else Greater
  }

  datatype Key = KNat(n: int) | KSeq(items: seq<Key>)

  /** `bool` orders `false` before `true`. */
  function BoolKey(b: bool): Key { KNat(if b then 1 else 0) }

  /** A cell `(usize, usize)` compares as a tuple. */
  function CellKey(c: (nat, nat)): Key { KSeq([KNat(c.0), KNat(c.1)]) }

  /** A `Vec<(usize, usize)>`. */
  function CellsKey(cs: seq<(nat, nat)>): (k: Key)
    ensures k.KSeq? && |k.items| == |cs|
    ensures forall i :: 0 <= i < |cs| ==> k.items[i] == CellKey(cs[i])
  {
    KSeq(seq(|cs|, i requires 0 <= i < |cs| => CellKey(cs[i])))
  }

  /** A `Vec<Vec<(usize, usize)>>`. */
  function PathsKey(ps: seq<seq<(nat, nat)>>): (k: Key)
    ensures k.KSeq? && |k.items| == |ps|
    ensures forall i :: 0 <= i < |ps| ==> k.items[i] == CellsKey(ps[i])
  {
    KSeq(seq(|ps|, i requires 0 <= i < |ps| => CellsKey(ps[i])))
  }

  function CmpKey(a: Key, b: Key): Ordering
    decreases a
  {
    match a
    case KNat(x) => (match b case KNat(y) => CmpNat(x, y) case KSeq(_) => Less)
    case KSeq(xs) => (match b case KNat(_) => Greater case KSeq(ys) => CmpKeys(xs, ys))
  }

  /** Lexicographic comparison of two sequences of keys. */
  function CmpKeys(xs: seq<Key>, ys: seq<Key>): Ordering
    decreases xs
  {
    if |xs| == 0 then (if |ys| == 0 then Equal else Less)
    else if |ys| == 0 then Greater
    else Then(CmpKey(xs[0], ys[0]), CmpKeys(xs[1..], ys[1..]))
  }

  /** Lexicographic comparison looks at the first items and falls back to the rest. */
  lemma LexStep(xs: seq<Key>, ys: seq<Key>)
    requires |xs| > 0 && |ys| > 0
    ensures CmpKey(KSeq(xs), KSeq(ys)) == Then(CmpKey(xs[0], ys[0]), CmpKey(KSeq(xs[1..]), KSeq(ys[1..])))
  {
  }

  predicate KeyLt(a: Key, b: Key) { CmpKey(a, b) == Less }
  predicate KeyLe(a: Key, b: Key) { CmpKey(a, b) != Greater }

  lemma {:induction false} CmpKeyEqual(a: Key, b: Key)
    ensures (CmpKey(a, b) == Equal) == (a == b)
    decreases a
  {
    match a
    case KNat(_) =>
    case KSeq(xs) =>
      match b
      case KNat(_) =>
      case KSeq(ys) => CmpKeysEqual(xs, ys);
  }

  lemma {:induction false} CmpKeysEqual(xs: seq<Key>, ys: seq<Key>)
    ensures (CmpKeys(xs, ys) == Equal) == (xs == ys)
    decreases xs
  {
    if |xs| > 0 && |ys| > 0 {
      CmpKeyEqual(xs[0], ys[0]);
      CmpKeysEqual(xs[1..], ys[1..]);
      if xs[0] == ys[0] && xs[1..] == ys[1..] {
        assert xs == [xs[0]] + xs[1..] && ys == [ys[0]] + ys[1..];
      }
    }
  }

  lemma {:induction false} CmpKeyAntisym(a: Key, b: Key)
    ensures CmpKey(a, b) == Reverse(CmpKey(b, a))
    decreases a
  {
    match a
    case KNat(_) =>
    case KSeq(xs) =>
      match b
      case KNat(_) =>
      case KSeq(ys) => CmpKeysAntisym(xs, ys);
  }

  lemma {:induction false} CmpKeysAntisym(xs: seq<Key>, ys: seq<Key>)
    ensures CmpKeys(xs, ys) == Reverse(CmpKeys(ys, xs))
    decreases xs
  {
    if |xs| > 0 && |ys| > 0 {
      CmpKeyAntisym(xs[0], ys[0]);
      CmpKeysAntisym(xs[1..], ys[1..]);
    }
  }

  lemma {:induction false} CmpKeyTrans(a: Key, b: Key, c: Key)
    requires KeyLe(a, b) && KeyLe(b, c)
    ensures KeyLe(a, c)
    ensures KeyLt(a, b) || KeyLt(b, c) ==> KeyLt(a, c)
    decreases a
  {
    match a
    case KNat(_) =>
    case KSeq(xs) =>
      match b
      case KNat(_) =>
      case KSeq(ys) =>
        match c
        case KNat(_) =>
        case KSeq(zs) => CmpKeysTrans(xs, ys, zs);
  }

  lemma {:induction false} CmpKeysTrans(xs: seq<Key>, ys: seq<Key>, zs: seq<Key>)
    requires CmpKeys(xs, ys) != Greater && CmpKeys(ys, zs) != Greater
    ensures CmpKeys(xs, zs) != Greater
    ensures CmpKeys(xs, ys) == Less || CmpKeys(ys, zs) == Less ==> CmpKeys(xs, zs) == Less
    decreases xs
  {
    if |xs| > 0 && |ys| > 0 && |zs| > 0 {
      CmpKeyEqual(xs[0], ys[0]);
      CmpKeyEqual(ys[0], zs[0]);
      CmpKeyEqual(xs[0], zs[0]);
      var h1, h2 := CmpKey(xs[0], ys[0]), CmpKey(ys[0], zs[0]);
      CmpKeyTrans(xs[0], ys[0], zs[0]);
      if h1 == Equal && h2 == Equal {
        CmpKeysTrans(xs[1..], ys[1..], zs[1..]);
      }
    }
  }

  /** Every non-empty finite set of keys has a least element. */
  lemma {:induction false} MinKeyExists(s: set<Key>)
    requires s != {}
    ensures exists m :: m in s && forall k :: k in s ==> KeyLe(m, k)
    decreases |s|
  {
    var x :| x in s;
    if s == {x} {
      CmpKeyEqual(x, x);
    } else {
      MinKeyExists(s - {x});
      var m :| m in s - {x} && forall k :: k in s - {x} ==> KeyLe(m, k);
      CmpKeyAntisym(m, x);
      if KeyLe(m, x) {
        assert forall k :: k in s ==> KeyLe(m, k);
      } else {
        forall k | k in s ensures KeyLe(x, k) {
          if k != x { CmpKeyTrans(x, m, k); } else { CmpKeyEqual(x, x); }
        }
      }
    }
  }

  /** The least element of a non-empty finite set of keys; unique since `CmpKey` is antisymmetric. */
  function MinKey(s: set<Key>): (m: Key)
    requires s != {}
    ensures m in s && forall k :: k in s ==> KeyLe(m, k)
  {
    MinKeyExists(s);
    var m :| m in s && forall k :: k in s ==> KeyLe(m, k);
    MinKeyUnique(s, m);
    m
  }

  lemma MinKeyUnique(s: set<Key>, m: Key)
    requires m in s && forall k :: k in s ==> KeyLe(m, k)
    ensures forall m' :: m' in s && (forall k :: k in s ==> KeyLe(m', k)) ==> m' == m
  {
    forall m' | m' in s && (forall k :: k in s ==> KeyLe(m', k)) ensures m' == m {
      CmpKeyAntisym(m, m');
      CmpKeyEqual(m, m');
    }
  }

  /** The key `BTreeSet::first` and `pop_first` find: the least in the order. */
  function Least<T>(m: map<Key, T>): (k: Key)
    requires m != map[]
    ensures k in m && forall j :: j in m ==> KeyLe(k, j)
  {
    MinKey(m.Keys)
  }

  /** `BTreeSet::insert`: a key already present keeps its element. */
  function Insert<T>(m: map<Key, T>, k: Key, v: T): (r: map<Key, T>)
    ensures r.Keys == m.Keys + {k} && (k !in m ==> r[k] == v) && forall j :: j in m ==> r[j] == m[j]
  {
    if k in m then m else m[k := v]
  }
}
