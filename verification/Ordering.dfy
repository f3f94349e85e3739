/** Relations ordered by a unique lexicographic key.

    Every paged query of the repository is "ORDER BY key DESC LIMIT n" over a relation
    whose key is unique, optionally restricted to the rows after a cursor. A relation is
    a finite set of rows here; the key columns are packed in `Key`. */
module Ordering {

  /** Four ORDER BY columns, compared left to right. */
  datatype Key = Key(a: int, b: int, c: int, d: int)

  predicate Less(x: Key, y: Key) {
    x.a < y.a ||
    (x.a == y.a && (x.b < y.b ||
    (x.b == y.b && (x.c < y.c ||
    (x.c == y.c && x.d < y.d)))))
  }

  function Min(x: int, y: int): int {
    if x < y then x else y
  }

  /** Any element: Go iterates over maps in an unspecified order. */
  method Pick<T>(s: set<T>) returns (x: T)
    requires s != {}
    ensures x in s
  {
    x :| x in s;
  }

  lemma Element<T>(s: set<T>) returns (x: T)
    requires s != {}
    ensures x in s
  {
    x :| x in s;
  }

  /** The key columns identify the row. */
  ghost predicate Keyed<T>(s: set<T>, key: T -> Key) {
    forall x, y | x in s && y in s && key(x) == key(y) :: x == y
  }

  /** The rows that sort strictly before position `k` in descending order. */
  function Above<T(==)>(s: set<T>, key: T -> Key, k: Key): set<T> {
    set x | x in s && Less(k, key(x))
  }

  /** The rows that sort strictly after position `k` in descending order. */
  function Below<T(==)>(s: set<T>, key: T -> Key, k: Key): set<T> {
    set x | x in s && Less(key(x), k)
  }

  ghost predicate IsGreatest<T>(s: set<T>, key: T -> Key, m: T) {
    m in s && forall x | x in s :: x == m || Less(key(x), key(m))
  }

  lemma {:induction false} GreatestExists<T>(s: set<T>, key: T -> Key) returns (m: T)
    requires s != {} && Keyed(s, key)
    ensures IsGreatest(s, key, m)
    decreases |s|
  {
    var x :| x in s;
    if s == {x} {
      m := x;
    } else {
      var rest := s - {x};
      assert s == {x} + rest;
      var y := GreatestExists(rest, key);
      assert y != x && key(x) != key(y);
      m := if Less(key(y), key(x)) then x else y;
      forall z | z in s ensures z == m || Less(key(z), key(m)) {
        assert z == x || z in rest;
      }
    }
  }

  function Greatest<T(==)>(s: set<T>, key: T -> Key): (m: T)
    requires s != {} && Keyed(s, key)
    ensures IsGreatest(s, key, m)
  {
    GreatestExistsFact(s, key);
    var m :| m in s && forall x | x in s :: x == m || Less(key(x), key(m));
    m
  }

  lemma GreatestExistsFact<T>(s: set<T>, key: T -> Key)
    requires s != {} && Keyed(s, key)
    ensures exists m :: IsGreatest(s, key, m)
  {
    var m := GreatestExists(s, key);
  }

  /** ORDER BY key DESC. */
  function SortDesc<T(==)>(s: set<T>, key: T -> Key): seq<T>
    requires Keyed(s, key)
    decreases |s|
  {
    if s == {} then []
    else
      var m := Greatest(s, key);
      [m] + SortDesc(s - {m}, key)
  }

  /** ORDER BY key DESC LIMIT n. */
  function Top<T(==)>(s: set<T>, key: T -> Key, n: nat): seq<T>
    requires Keyed(s, key)
  {
    Take(SortDesc(s, key), n)
  }

  function Take<T>(s: seq<T>, n: nat): seq<T> {
    s[..Min(n, |s|)]
  }

  ghost predicate Descending<T>(r: seq<T>, key: T -> Key) {
    forall i, j | 0 <= i < j < |r| :: Less(key(r[j]), key(r[i]))
  }

  ghost predicate Lists<T>(r: seq<T>, s: set<T>) {
    && |r| == |s|
    && (forall i | 0 <= i < |r| :: r[i] in s)
    && (forall x | x in s :: x in r)
  }

  lemma PrependLists<T>(m: T, rest: seq<T>, s: set<T>)
    requires m in s && Lists(rest, s - {m})
    ensures Lists([m] + rest, s)
  {
    forall x | x in s ensures x in [m] + rest {
      if x != m { assert x in s - {m}; }
    }
  }

  lemma PrependDescending<T>(m: T, rest: seq<T>, s: set<T>, key: T -> Key)
    requires IsGreatest(s, key, m) && Lists(rest, s - {m}) && Descending(rest, key)
    ensures Descending([m] + rest, key)
  {
    var r := [m] + rest;
    forall i, j | 0 <= i < j < |r| ensures Less(key(r[j]), key(r[i])) {
      assert r[j] == rest[j - 1];
      if i > 0 { assert r[i] == rest[i - 1]; }
    }
  }

  /** Sorting lists every row once, in strictly descending key order. */
  lemma {:induction false} SortDescSpec<T>(s: set<T>, key: T -> Key)
    requires Keyed(s, key)
    ensures Lists(SortDesc(s, key), s) && Descending(SortDesc(s, key), key)
    decreases |s|
  {
    if s != {} {
      var m := Greatest(s, key);
      SortDescSpec(s - {m}, key);
      PrependLists(m, SortDesc(s - {m}, key), s);
      PrependDescending(m, SortDesc(s - {m}, key), s, key);
    }
  }

  /** A set has only one strictly descending listing. */
  lemma {:induction false} ListingUnique<T>(p: seq<T>, q: seq<T>, s: set<T>, key: T -> Key)
    requires Lists(p, s) && Descending(p, key)
    requires Lists(q, s) && Descending(q, key)
    ensures p == q
    decreases |p|
  {
    if p != [] {
      assert p[0] in q && q[0] in p;
      var i :| 0 <= i < |q| && q[i] == p[0];
      var j :| 0 <= j < |p| && p[j] == q[0];
      assert p[0] == q[0];
      TailLists(p, s, key);
      TailLists(q, s, key);
      ListingUnique(p[1..], q[1..], s - {p[0]}, key);
      assert p == [p[0]] + p[1..] && q == [q[0]] + q[1..];
    }
  }

  lemma TailLists<T>(p: seq<T>, s: set<T>, key: T -> Key)
    requires p != [] && Lists(p, s) && Descending(p, key)
    ensures Lists(p[1..], s - {p[0]}) && Descending(p[1..], key)
  { }

  lemma ConcatLists<T>(p: seq<T>, q: seq<T>, hi: set<T>, lo: set<T>)
    requires Lists(p, hi) && Lists(q, lo) && hi !! lo
    ensures Lists(p + q, hi + lo)
  { }

  lemma ConcatDescending<T>(p: seq<T>, q: seq<T>, key: T -> Key)
    requires Descending(p, key) && Descending(q, key)
    requires forall i, j | 0 <= i < |p| && 0 <= j < |q| :: Less(key(q[j]), key(p[i]))
    ensures Descending(p + q, key)
  { }

  lemma ConcatAround<T>(p: seq<T>, q: seq<T>, x: T, key: T -> Key)
    requires Descending(p, key) && Descending(q, key)
    requires forall r | r in p :: r == x || Less(key(x), key(r))
    requires forall r | r in q :: Less(key(r), key(x))
    ensures Descending(p + q, key)
  { }

  /** A set that splits in an upper and a lower part sorts as the upper part, then the lower. */
  lemma {:induction false} SortSplit<T>(s: set<T>, hi: set<T>, lo: set<T>, key: T -> Key)
    requires Keyed(s, key) && s == hi + lo
    requires forall x, y | x in hi && y in lo :: Less(key(y), key(x))
    ensures Keyed(hi, key) && Keyed(lo, key)
    ensures SortDesc(s, key) == SortDesc(hi, key) + SortDesc(lo, key)
  {
    SortDescSpec(s, key);
    SortDescSpec(hi, key);
    SortDescSpec(lo, key);
    SplitListing(SortDesc(hi, key), SortDesc(lo, key), hi, lo, key);
    ListingUnique(SortDesc(s, key), SortDesc(hi, key) + SortDesc(lo, key), s, key);
  }

  lemma SplitListing<T>(p: seq<T>, q: seq<T>, hi: set<T>, lo: set<T>, key: T -> Key)
    requires Lists(p, hi) && Lists(q, lo) && Descending(p, key) && Descending(q, key)
    requires forall x, y | x in hi && y in lo :: Less(key(y), key(x))
    ensures Lists(p + q, hi + lo) && Descending(p + q, key)
  {
    forall x | x in hi ensures x !in lo { }
    ConcatLists(p, q, hi, lo);
    ConcatDescending(p, q, key);
  }

  /** The rows that follow position i of the listing are those below its key. */
  lemma {:induction false} BelowIsSuffix<T>(s: set<T>, key: T -> Key, i: nat)
    requires Keyed(s, key) && i < |SortDesc(s, key)|
    ensures Keyed(Below(s, key, key(SortDesc(s, key)[i])), key)
    ensures SortDesc(Below(s, key, key(SortDesc(s, key)[i])), key) == SortDesc(s, key)[i + 1..]
  {
    var r := SortDesc(s, key);
    var lo := Below(s, key, key(r[i]));
    SortDescSpec(s, key);
    SortDescSpec(lo, key);
    SuffixLists(r, s, key, i);
    ListingUnique(SortDesc(lo, key), r[i + 1..], lo, key);
  }

  lemma SuffixLists<T>(r: seq<T>, s: set<T>, key: T -> Key, i: nat)
    requires Lists(r, s) && Descending(r, key) && i < |r|
    ensures Lists(r[i + 1..], Below(s, key, key(r[i]))) && Descending(r[i + 1..], key)
  {
    var lo := Below(s, key, key(r[i]));
    var t := r[i + 1..];
    forall x | x in lo ensures x in t {
      var j :| 0 <= j < |r| && r[j] == x;
      assert t[j - i - 1] == x;
    }
    forall j | 0 <= j < |t| ensures t[j] in lo {
      assert t[j] == r[i + 1 + j];
    }
    assert (set x | x in t) == lo;
    DescendingLength(t, lo, key);
  }

  lemma {:induction false} DescendingLength<T>(t: seq<T>, s: set<T>, key: T -> Key)
    requires Descending(t, key) && s == set x | x in t
    ensures |t| == |s|
    decreases |t|
  {
    if t != [] {
      var u := t[1..];
      var rest := set x | x in u;
      assert t == [t[0]] + u;
      forall i | 0 <= i < |u| ensures u[i] != t[0] {
        assert u[i] == t[i + 1] && Less(key(t[i + 1]), key(t[0]));
      }
      assert t[0] !in rest && s == {t[0]} + rest;
      DescendingLength(u, rest, key);
    } else {
      assert s == {};
    }
  }

  /** A row that LIMIT n cut off has at least n rows before it. */
  lemma CutOffHasManyAbove<T>(s: set<T>, key: T -> Key, n: nat, x: T)
    requires Keyed(s, key) && x in s && x !in Top(s, key, n)
    ensures |Above(s, key, key(x))| >= n
  {
    var r := SortDesc(s, key);
    SortDescSpec(s, key);
    var i :| 0 <= i < |r| && r[i] == x;
    assert forall j | 0 <= j < |Top(s, key, n)| :: Top(s, key, n)[j] == r[j];
    var front := r[..n];
    var fs := set y | y in front;
    DescendingLength(front, fs, key);
    forall y | y in fs ensures y in Above(s, key, key(x)) {
      var j :| 0 <= j < |front| && front[j] == y;
      assert Less(key(r[i]), key(r[j]));
    }
    SubsetSize(fs, Above(s, key, key(x)));
  }

  lemma SubsetSize<T>(a: set<T>, b: set<T>)
    requires a <= b
    ensures |a| <= |b|
  {
    assert b == a + (b - a);
  }

  /** LIMIT n only looks above a position that already has n rows before it. */
  lemma TopAgree<T>(s: set<T>, t: set<T>, key: T -> Key, n: nat, k: Key)
    requires Keyed(s, key) && Keyed(t, key)
    requires Above(s, key, k) == Above(t, key, k) && |Above(s, key, k)| >= n
    ensures Top(s, key, n) == Top(t, key, n)
  {
    TopIsAbove(s, key, n, k);
    TopIsAbove(t, key, n, k);
  }

  lemma TopIsAbove<T>(s: set<T>, key: T -> Key, n: nat, k: Key)
    requires Keyed(s, key) && |Above(s, key, k)| >= n
    ensures Keyed(Above(s, key, k), key)
    ensures Top(s, key, n) == Top(Above(s, key, k), key, n)
  {
    var hi := Above(s, key, k);
    SortSplit(s, hi, s - hi, key);
    assert |SortDesc(hi, key)| == |hi| by { SortDescSpec(hi, key); }
    TakeConcat(SortDesc(hi, key), SortDesc(s - hi, key), n);
  }

  lemma TakeConcat<T>(p: seq<T>, q: seq<T>, n: nat)
    requires n <= |p|
    ensures Take(p + q, n) == Take(p, n)
  { }

  /** An injective image is as large as its source. */
  lemma {:induction false} InjectionSize<A, B>(a: set<A>, b: set<B>, f: A -> B)
    requires forall x | x in a :: f(x) in b
    requires forall x, y | x in a && y in a && f(x) == f(y) :: x == y
    ensures |a| <= |b|
    decreases |a|
  {
    if a != {} {
      var x :| x in a;
      InjectionSize(a - {x}, b - {f(x)}, f);
    }
  }
}
