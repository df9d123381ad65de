/** Python's ordering of `str` values, `sorted(set(xs))` over strings, the
    `i < j` pair loops the pipeline uses to turn a participant list into
    co-occurrence rows, and a stable sort for `sort_values`. */
module Ordering {
  import opened Seqs

  /** Python's `a < b` for `str`: lexicographic by code point. */
  predicate Less(a: string, b: string)
    decreases |a|
  {
    if |a| == 0 then |b| > 0
    else if |b| == 0 then false
    else if a[0] == b[0] then Less(a[1..], b[1..])
    else a[0] < b[0]
  }

  lemma {:induction false} LessIrreflexive(a: string)
    ensures !Less(a, a)
    decreases |a|
  {
    if |a| > 0 { LessIrreflexive(a[1..]); }
  }

  lemma {:induction false} LessTransitive(a: string, b: string, c: string)
    requires Less(a, b) && Less(b, c)
    ensures Less(a, c)
    decreases |a|
  {
    if |a| > 0 && |b| > 0 && |c| > 0 && a[0] == b[0] && b[0] == c[0] {
      LessTransitive(a[1..], b[1..], c[1..]);
    }
  }

  lemma {:induction false} LessTotal(a: string, b: string)
    requires a != b
    ensures Less(a, b) || Less(b, a)
    decreases |a|
  {
    if |a| > 0 && |b| > 0 && a[0] == b[0] {
      assert a == [a[0]] + a[1..] && b == [b[0]] + b[1..];
      LessTotal(a[1..], b[1..]);
    }
  }

  lemma LessAsymmetric(a: string, b: string)
    requires Less(a, b)
    ensures !Less(b, a)
  {
    if Less(b, a) {
      LessTransitive(a, b, a);
      LessIrreflexive(a);
    }
  }

  predicate StrictlySorted(s: seq<string>) {
    forall i, j :: 0 <= i < j < |s| ==> Less(s[i], s[j])
  }

  lemma StrictlySortedDistinct(s: seq<string>)
    requires StrictlySorted(s)
    ensures Distinct(s)
  {
    forall i, j | 0 <= i < j < |s| ensures s[i] != s[j] {
      if s[i] == s[j] { LessIrreflexive(s[i]); }
    }
  }

  /** Insert `x` into a strictly sorted list unless it is already there. */
  function InsertDistinct(x: string, s: seq<string>): (r: seq<string>)
    requires StrictlySorted(s)
    ensures StrictlySorted(r)
    ensures forall y :: y in r <==> y in s || y == x
    decreases |s|
  {
    if |s| == 0 then [x]
    else if x == s[0] then s
    else if Less(x, s[0]) then
      assert forall j :: 0 <= j < |s| ==> Less(x, s[j]) by {
        forall j | 0 < j < |s| ensures Less(x, s[j]) { LessTransitive(x, s[0], s[j]); }
      }
      [x] + s
    else
      LessTotal(x, s[0]);
      var t := InsertDistinct(x, s[1..]);
      assert forall y :: y in t ==> Less(s[0], y) by {
        forall y | y in t ensures Less(s[0], y) {
          if y != x {
            var j :| 0 <= j < |s[1..]| && s[1..][j] == y;
            assert s[1 + j] == y;
          }
        }
      }
      assert forall y :: y in s <==> y == s[0] || y in s[1..] by {
        assert s == [s[0]] + s[1..];
      }
      [s[0]] + t
  }

  /** `sorted(set(xs))` for strings. */
  function SortedDistinct(xs: seq<string>): (r: seq<string>)
    ensures StrictlySorted(r)
    ensures forall y :: y in r <==> y in xs
    decreases |xs|
  {
    if |xs| == 0 then []
    else
      var r := InsertDistinct(xs[|xs| - 1], SortedDistinct(xs[..|xs| - 1]));
      assert forall y :: y in xs <==> y in xs[..|xs| - 1] || y == xs[|xs| - 1] by {
        assert xs == xs[..|xs| - 1] + [xs[|xs| - 1]];
      }
      r
  }

  /** The rows one pass `for j in range(i + 1, n)` appends for position `i`
      and `j` below `hi`. */
  function PairsAt<T(!new)>(s: seq<T>, i: nat, hi: nat): (r: seq<(T, T)>)
    requires i < |s| && hi <= |s|
    ensures forall p :: p in r <==> exists j :: i < j < hi && p == (s[i], s[j])
    decreases hi
  {
    if hi <= i + 1 then []
    else
      var r := PairsAt(s, i, hi - 1) + [(s[i], s[hi - 1])];
      r
  }

  /** The rows `for i in range(lo): for j in range(i + 1, n)` appends. */
  function PairsUpTo<T(!new)>(s: seq<T>, lo: nat): (r: seq<(T, T)>)
    requires lo <= |s|
    ensures forall p :: p in r <==> exists i, j :: 0 <= i < lo && i < j < |s| && p == (s[i], s[j])
    decreases lo
  {
    if lo == 0 then []
    else
      var prev := PairsUpTo(s, lo - 1);
      var r := prev + PairsAt(s, lo - 1, |s|);
      assert forall p :: p in r <==> exists i, j :: 0 <= i < lo && i < j < |s| && p == (s[i], s[j]) by {
        forall p | p in r ensures exists i, j :: 0 <= i < lo && i < j < |s| && p == (s[i], s[j]) {
          if p !in prev {
            var j :| lo - 1 < j < |s| && p == (s[lo - 1], s[j]);
          }
        }
        forall p | exists i, j :: 0 <= i < lo && i < j < |s| && p == (s[i], s[j]) ensures p in r {
          var i, j :| 0 <= i < lo && i < j < |s| && p == (s[i], s[j]);
          if i == lo - 1 {
            assert p in PairsAt(s, lo - 1, |s|);
          } else {
            assert p in prev;
          }
        }
      }
      r
  }

  /** Every `(ids[i], ids[j])` with `i < j`, as the nested loops emit them. */
  function Pairs<T(!new)>(s: seq<T>): seq<(T, T)> {
    PairsUpTo(s, |s|)
  }

  /** The nested `i < j` loops over a participant list, each appending one
      weight-1 row; the result is exactly `Pairs(ids)`. */
  method PairRows<T(!new)>(ids: seq<T>) returns (rows: seq<(T, T)>)
    ensures rows == Pairs(ids)
  {
    rows := [];
    var i := 0;
    while i < |ids|
      invariant 0 <= i <= |ids|
      invariant rows == PairsUpTo(ids, i)
    {
      var j := i + 1;
      ghost var before := rows;
      while j < |ids|
        invariant i + 1 <= j <= |ids|
        invariant rows == before + PairsAt(ids, i, j)
      {
        rows := rows + [(ids[i], ids[j])];
        j := j + 1;
      }
      i := i + 1;
    }
  }

  /** On a strictly sorted list, the pair rows are ordered (`a < b`), and
      `(a, b)` occurs exactly once when both are present and `a < b`. */
  lemma PairsCount(s: seq<string>, a: string, b: string)
    requires StrictlySorted(s)
    ensures Count(Pairs(s), (a, b)) == if a in s && b in s && Less(a, b) then 1 else 0
  {
    PairsDistinct(s);
    CountDistinct(Pairs(s), (a, b));
    if a in s && b in s && Less(a, b) {
      var i :| 0 <= i < |s| && s[i] == a;
      var j :| 0 <= j < |s| && s[j] == b;
      if j <= i {
        if j == i { LessIrreflexive(a); } else { LessAsymmetric(a, b); }
      }
      assert (a, b) in Pairs(s);
    } else {
      PairsOrdered(s);
    }
  }

  /** Every pair row of a strictly sorted list holds two members in order. */
  lemma PairsOrdered(s: seq<string>)
    requires StrictlySorted(s)
    ensures forall p :: p in Pairs(s) ==> p.0 in s && p.1 in s && Less(p.0, p.1)
  {
    forall p | p in Pairs(s) ensures p.0 in s && p.1 in s && Less(p.0, p.1) {
      var i, j :| 0 <= i < |s| && i < j < |s| && p == (s[i], s[j]);
    }
  }

  lemma PairsDistinct(s: seq<string>)
    requires StrictlySorted(s)
    ensures Distinct(Pairs(s))
  {
    PairsUpToDistinct(s, |s|);
  }

  lemma {:induction false} PairsUpToDistinct(s: seq<string>, lo: nat)
    requires StrictlySorted(s) && lo <= |s|
    ensures Distinct(PairsUpTo(s, lo))
    decreases lo
  {
    if lo > 0 {
      PairsUpToDistinct(s, lo - 1);
      PairsAtDistinct(s, lo - 1, |s|);
      var a := PairsUpTo(s, lo - 1);
      var b := PairsAt(s, lo - 1, |s|);
      StrictlySortedDistinct(s);
      forall y | y in b ensures y.0 == s[lo - 1] {
        var k :| lo - 1 < k < |s| && y == (s[lo - 1], s[k]);
      }
      forall x | x in a ensures x !in b {
        var i, j :| 0 <= i < lo - 1 && i < j < |s| && x == (s[i], s[j]);
        assert x.0 != s[lo - 1];
      }
      DistinctAppend(a, b);
    }
  }

  lemma {:induction false} PairsAtDistinct(s: seq<string>, i: nat, hi: nat)
    requires StrictlySorted(s) && i < |s| && hi <= |s|
    ensures Distinct(PairsAt(s, i, hi))
    decreases hi
  {
    if hi > i + 1 {
      PairsAtDistinct(s, i, hi - 1);
      StrictlySortedDistinct(s);
      var a := PairsAt(s, i, hi - 1);
      forall x | x in a ensures x != (s[i], s[hi - 1]) {
        var j :| i < j < hi - 1 && x == (s[i], s[j]);
      }
      DistinctAppend(a, [(s[i], s[hi - 1])]);
    }
  }

  lemma DistinctAppend<T>(a: seq<T>, b: seq<T>)
    requires Distinct(a) && Distinct(b)
    requires forall x :: x in a ==> x !in b
    ensures Distinct(a + b)
  {
    forall i, j | 0 <= i < j < |a + b| ensures (a + b)[i] != (a + b)[j] {
      if i < |a| && j >= |a| {
        assert (a + b)[i] in a;
        assert (a + b)[j] == b[j - |a|];
      } else if i >= |a| {
        assert (a + b)[i] == b[i - |a|] && (a + b)[j] == b[j - |a|];
      }
    }
  }

  /** Every `(s[i], s[j])` including `i == j` and both orders: the
      `for g1 in s: for g2 in s` loops. */
  function SquareAt<T(!new)>(s: seq<T>, i: nat, hi: nat): (r: seq<(T, T)>)
    requires i < |s| && hi <= |s|
    ensures forall p :: p in r <==> exists j :: 0 <= j < hi && p == (s[i], s[j])
    decreases hi
  {
    if hi == 0 then [] else SquareAt(s, i, hi - 1) + [(s[i], s[hi - 1])]
  }

  function SquareUpTo<T(!new)>(s: seq<T>, lo: nat): (r: seq<(T, T)>)
    requires lo <= |s|
    ensures forall p :: p in r <==> exists i, j :: 0 <= i < lo && 0 <= j < |s| && p == (s[i], s[j])
    decreases lo
  {
    if lo == 0 then []
    else
      var prev := SquareUpTo(s, lo - 1);
      var r := prev + SquareAt(s, lo - 1, |s|);
      assert forall p :: p in r <==> exists i, j :: 0 <= i < lo && 0 <= j < |s| && p == (s[i], s[j]) by {
        forall p | p in r ensures exists i, j :: 0 <= i < lo && 0 <= j < |s| && p == (s[i], s[j]) {
          if p !in prev {
            var j :| 0 <= j < |s| && p == (s[lo - 1], s[j]);
          }
        }
        forall p | exists i, j :: 0 <= i < lo && 0 <= j < |s| && p == (s[i], s[j]) ensures p in r {
          var i, j :| 0 <= i < lo && 0 <= j < |s| && p == (s[i], s[j]);
          if i == lo - 1 {
            assert p in SquareAt(s, lo - 1, |s|);
          } else {
            assert p in prev;
          }
        }
      }
      r
  }

  function Square<T(!new)>(s: seq<T>): seq<(T, T)> {
    SquareUpTo(s, |s|)
  }

  /** The nested `for g1 in s: for g2 in s` loops, each appending one row. */
  method SquareRows<T(!new)>(s: seq<T>) returns (rows: seq<(T, T)>)
    ensures rows == Square(s)
  {
    rows := [];
    var i := 0;
    while i < |s|
      invariant 0 <= i <= |s|
      invariant rows == SquareUpTo(s, i)
    {
      var j := 0;
      ghost var before := rows;
      while j < |s|
        invariant 0 <= j <= |s|
        invariant rows == before + SquareAt(s, i, j)
      {
        rows := rows + [(s[i], s[j])];
        j := j + 1;
      }
      i := i + 1;
    }
  }

  /** On a duplicate-free list, `(a, b)` occurs once in the square exactly
      when both are present. */
  lemma SquareCount<T(!new)>(s: seq<T>, a: T, b: T)
    requires Distinct(s)
    ensures Count(Square(s), (a, b)) == if a in s && b in s then 1 else 0
  {
    SquareUpToDistinct(s, |s|);
    CountDistinct(Square(s), (a, b));
    if a in s && b in s {
      var i :| 0 <= i < |s| && s[i] == a;
      var j :| 0 <= j < |s| && s[j] == b;
      assert (a, b) in Square(s);
    } else {
      forall p | p in Square(s) ensures p.0 in s && p.1 in s {
        var i, j :| 0 <= i < |s| && 0 <= j < |s| && p == (s[i], s[j]);
      }
    }
  }

  lemma {:induction false} SquareUpToDistinct<T(!new)>(s: seq<T>, lo: nat)
    requires Distinct(s) && lo <= |s|
    ensures Distinct(SquareUpTo(s, lo))
    decreases lo
  {
    if lo > 0 {
      SquareUpToDistinct(s, lo - 1);
      SquareAtDistinct(s, lo - 1, |s|);
      var a := SquareUpTo(s, lo - 1);
      var b := SquareAt(s, lo - 1, |s|);
      forall y | y in b ensures y.0 == s[lo - 1] {
        var k :| 0 <= k < |s| && y == (s[lo - 1], s[k]);
      }
      forall x | x in a ensures x !in b {
        var i, j :| 0 <= i < lo - 1 && 0 <= j < |s| && x == (s[i], s[j]);
        assert x.0 != s[lo - 1];
      }
      DistinctAppend(a, b);
    }
  }

  lemma {:induction false} SquareAtDistinct<T(!new)>(s: seq<T>, i: nat, hi: nat)
    requires Distinct(s) && i < |s| && hi <= |s|
    ensures Distinct(SquareAt(s, i, hi))
    decreases hi
  {
    if hi > 0 {
      SquareAtDistinct(s, i, hi - 1);
      var a := SquareAt(s, i, hi - 1);
      forall x | x in a ensures x != (s[i], s[hi - 1]) {
        var j :| 0 <= j < hi - 1 && x == (s[i], s[j]);
      }
      DistinctAppend(a, [(s[i], s[hi - 1])]);
    }
  }

  /** `le` is a total preorder: a legal sort key comparison. */
  ghost predicate TotalPreorder<T(!new)>(le: (T, T) -> bool) {
    (forall a, b :: le(a, b) || le(b, a))
    && (forall a, b, c :: le(a, b) && le(b, c) ==> le(a, c))
  }

  predicate SortedBy<T>(s: seq<T>, le: (T, T) -> bool) {
    forall i, j :: 0 <= i < j < |s| ==> le(s[i], s[j])
  }

  /** Every element of `s` is at least `b`. */
  predicate LowerBound<T>(b: T, s: seq<T>, le: (T, T) -> bool) {
    forall j :: 0 <= j < |s| ==> le(b, s[j])
  }

  /** Prepending a lower bound keeps a sequence sorted. */
  lemma SortedCons<T>(b: T, s: seq<T>, le: (T, T) -> bool)
    requires LowerBound(b, s, le) && SortedBy(s, le)
    ensures SortedBy([b] + s, le)
  {
    var r := [b] + s;
    forall i, j | 0 <= i < j < |r| ensures le(r[i], r[j]) {
      assert r[j] == s[j - 1];
      if i > 0 { assert r[i] == s[i - 1]; }
    }
  }

  /** Anything below the head of a sorted sequence bounds all of it. */
  lemma SortedHeadBound<T(!new)>(b: T, s: seq<T>, le: (T, T) -> bool)
    requires TotalPreorder(le) && |s| > 0
    requires le(b, s[0]) && forall j :: 0 < j < |s| ==> le(s[0], s[j])
    ensures LowerBound(b, s, le)
  {
  }

  /** The head of a sorted sequence bounds its tail and anything above it. */
  lemma SortedTailBound<T>(s: seq<T>, x: T, le: (T, T) -> bool)
    requires SortedBy(s, le) && |s| > 0 && le(s[0], x)
    ensures LowerBound(s[0], s[1..] + [x], le)
  {
    var r := s[1..] + [x];
    forall j | 0 <= j < |r| ensures le(s[0], r[j]) {
      if j < |s| - 1 { assert r[j] == s[j + 1]; }
    }
  }

  /** A lower bound of a sequence bounds each of its permutations. */
  lemma LowerBoundPerm<T>(b: T, s: seq<T>, t: seq<T>, le: (T, T) -> bool)
    requires LowerBound(b, s, le) && multiset(t) == multiset(s)
    ensures LowerBound(b, t, le)
  {
    forall j | 0 <= j < |t| ensures le(b, t[j]) {
      assert t[j] in multiset(s);
      var i :| 0 <= i < |s| && s[i] == t[j];
    }
  }

  /** Insert `x` after every element not greater than it (keeps ties in
      arrival order). */
  function InsertBy<T(!new)>(x: T, s: seq<T>, le: (T, T) -> bool): (r: seq<T>)
    requires TotalPreorder(le) && SortedBy(s, le)
    ensures SortedBy(r, le)
    ensures multiset(r) == multiset(s) + multiset{x}
    decreases |s|
  {
    if |s| == 0 then [x]
    else if !le(s[0], x) then
      assert le(x, s[0]);
      SortedHeadBound(x, s, le);
      SortedCons(x, s, le);
      [x] + s
    else
      var t := InsertBy(x, s[1..], le);
      assert s == [s[0]] + s[1..];
      SortedTailBound(s, x, le);
      LowerBoundPerm(s[0], s[1..] + [x], t, le);
      SortedCons(s[0], t, le);
      [s[0]] + t
  }

  /** A stable sort by `le`: sorted, and a permutation of the input. */
  function SortBy<T(!new)>(s: seq<T>, le: (T, T) -> bool): (r: seq<T>)
    requires TotalPreorder(le)
    ensures SortedBy(r, le)
    ensures multiset(r) == multiset(s)
    decreases |s|
  {
    if |s| == 0 then []
    else
      assert s == s[..|s| - 1] + [s[|s| - 1]];
      InsertBy(s[|s| - 1], SortBy(s[..|s| - 1], le), le)
  }

  /** The elements tied with `x` under `le`. */
  function TiedWith<T>(x: T, le: (T, T) -> bool): T -> bool {
    (z: T) => le(z, x) && le(x, z)
  }

  /** When `y` goes in front of a sorted `s`, no element of `s` is tied
      with `y`, so `y` also comes after every element tied with it. */
  lemma FrontTies<T(!new)>(y: T, s: seq<T>, le: (T, T) -> bool, x: T)
    requires TotalPreorder(le) && SortedBy(s, le)
    requires |s| > 0 && !le(s[0], y)
    ensures Filter([y] + s, TiedWith(x, le)) ==
      Filter(s, TiedWith(x, le)) + (if TiedWith(x, le)(y) then [y] else [])
  {
    var e := TiedWith(x, le);
    FilterAppend([y], s, e);
    assert [y] == [] + [y];
    FilterSnoc([], y, e);
    if e(y) {
      forall z | z in s ensures !e(z) {
        var j :| 0 <= j < |s| && s[j] == z;
        if j > 0 { assert le(s[0], s[j]); }
        assert le(s[0], z);
        assert le(z, x) && le(x, y) ==> le(z, y);
        assert !le(s[0], y) ==> !le(z, y);
      }
      FilterNone(s, e);
    }
  }

  /** Inserting `y` puts it after every element of `s` tied with it. */
  lemma {:induction false} InsertByTies<T(!new)>(y: T, s: seq<T>, le: (T, T) -> bool, x: T)
    requires TotalPreorder(le) && SortedBy(s, le)
    ensures Filter(InsertBy(y, s, le), TiedWith(x, le)) ==
      Filter(s, TiedWith(x, le)) + (if TiedWith(x, le)(y) then [y] else [])
    decreases |s|
  {
    var e := TiedWith(x, le);
    if |s| == 0 {
      assert InsertBy(y, s, le) == [] + [y];
      FilterSnoc([], y, e);
    } else if !le(s[0], y) {
      assert InsertBy(y, s, le) == [y] + s;
      FrontTies(y, s, le, x);
    } else {
      InsertBehind(y, s, le);
      InsertByTies(y, s[1..], le, x);
      FilterConsStep(s, InsertBy(y, s[1..], le), e, if e(y) then [y] else []);
    }
  }

  /** `y` not below the head of a sorted `s` is inserted into its tail. */
  lemma InsertBehind<T(!new)>(y: T, s: seq<T>, le: (T, T) -> bool)
    requires TotalPreorder(le) && SortedBy(s, le)
    requires |s| > 0 && le(s[0], y)
    ensures InsertBy(y, s, le) == [s[0]] + InsertBy(y, s[1..], le)
  {
  }

  /** `SortBy` is stable: the elements tied with any `x` keep their input
      order. */
  lemma {:induction false} SortByStable<T(!new)>(s: seq<T>, le: (T, T) -> bool, x: T)
    requires TotalPreorder(le)
    ensures Filter(SortBy(s, le), TiedWith(x, le)) == Filter(s, TiedWith(x, le))
    decreases |s|
  {
    if |s| > 0 {
      var q := s[..|s| - 1];
      assert s == q + [s[|s| - 1]];
      SortByStable(q, le, x);
      InsertByTies(s[|s| - 1], SortBy(q, le), le, x);
      FilterSnoc(q, s[|s| - 1], TiedWith(x, le));
    }
  }
}
