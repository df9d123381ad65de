/** Tables as sequences of records, and the pandas operations the pipeline
    applies to them: boolean filtering, `drop_duplicates(subset, keep="first")`,
    `groupby(...).size()` / a sum of unit weights, and row-wise concatenation. */
module Seqs {

  /** Number of occurrences of `x` in `s`. */
  function Count<T(==)>(s: seq<T>, x: T): nat
    decreases |s|
  {
    if |s| == 0 then 0
    else Count(s[..|s| - 1], x) + (if s[|s| - 1] == x then 1 else 0)
  }

  lemma {:induction false} CountPositive<T>(s: seq<T>, x: T)
    ensures Count(s, x) > 0 <==> x in s
    decreases |s|
  {
    if |s| > 0 {
      CountPositive(s[..|s| - 1], x);
      assert s == s[..|s| - 1] + [s[|s| - 1]];
    }
  }

  lemma {:induction false} CountAppend<T>(a: seq<T>, b: seq<T>, x: T)
    ensures Count(a + b, x) == Count(a, x) + Count(b, x)
    decreases |b|
  {
    if |b| == 0 {
      assert a + b == a;
    } else {
      assert (a + b)[..|a + b| - 1] == a + b[..|b| - 1];
      CountAppend(a, b[..|b| - 1], x);
    }
  }

  /** Elements of `s` at distinct positions are distinct. */
  predicate Distinct<T(==)>(s: seq<T>) {
    forall i, j :: 0 <= i < j < |s| ==> s[i] != s[j]
  }

  lemma {:induction false} CountDistinct<T>(s: seq<T>, x: T)
    requires Distinct(s)
    ensures Count(s, x) == if x in s then 1 else 0
    decreases |s|
  {
    if |s| > 0 {
      var p := s[..|s| - 1];
      CountDistinct(p, x);
      assert s == p + [s[|s| - 1]];
      if s[|s| - 1] == x {
        assert x !in p;
      }
    }
  }

  /** `groupby(key).size()` (or a sum of weight-1 rows): one entry per
      distinct value, holding how many rows carry it. */
  function Tally<T(==,!new)>(s: seq<T>): (m: map<T, nat>)
    ensures forall x :: x in m <==> x in s
    ensures forall x :: x in m ==> m[x] == Count(s, x) && m[x] >= 1
  {
    var m := map x | x in s :: Count(s, x);
    assert forall x :: x in m ==> m[x] >= 1 by {
      forall x | x in m ensures m[x] >= 1 { CountPositive(s, x); }
    }
    m
  }

  /** `df[mask]`: the rows satisfying `p`, in order. */
  function Filter<T(!new)>(s: seq<T>, p: T -> bool): (r: seq<T>)
    ensures |r| <= |s|
    ensures forall x :: x in r <==> x in s && p(x)
    decreases |s|
  {
    if |s| == 0 then []
    else
      var prev := Filter(s[..|s| - 1], p);
      assert forall x :: x in s <==> x in s[..|s| - 1] || x == s[|s| - 1] by {
        assert s == s[..|s| - 1] + [s[|s| - 1]];
      }
      if p(s[|s| - 1]) then prev + [s[|s| - 1]] else prev
  }

  lemma FilterSnoc<T(!new)>(s: seq<T>, x: T, p: T -> bool)
    ensures Filter(s + [x], p) == Filter(s, p) + (if p(x) then [x] else [])
  {
    assert (s + [x])[..|s + [x]| - 1] == s;
  }

  /** Filtering distributes over concatenation. */
  lemma {:induction false} FilterAppend<T(!new)>(a: seq<T>, b: seq<T>, p: T -> bool)
    ensures Filter(a + b, p) == Filter(a, p) + Filter(b, p)
    decreases |b|
  {
    if |b| == 0 {
      assert a + b == a;
    } else {
      var c := b[..|b| - 1];
      var x := b[|b| - 1];
      assert b == c + [x];
      assert a + b == (a + c) + [x];
      FilterAppend(a, c, p);
      FilterSnoc(a + c, x, p);
      FilterSnoc(c, x, p);
    }
  }

  /** Filtering a sequence split at `k`: its prefix, then its suffix. */
  lemma FilterSplit<T(!new)>(s: seq<T>, k: int, p: T -> bool)
    requires 0 <= k <= |s|
    ensures Filter(s, p) == Filter(s[..k], p) + Filter(s[k..], p)
  {
    assert s[..k] + s[k..] == s;
    FilterAppend(s[..k], s[k..], p);
  }

  /** Putting the head of `s` in front of `t` keeps the filtered rows in
      step, when `t` filters to the tail's rows followed by `tail`. */
  lemma FilterConsStep<T(!new)>(s: seq<T>, t: seq<T>, p: T -> bool, tail: seq<T>)
    requires |s| > 0
    requires Filter(t, p) == Filter(s[1..], p) + tail
    ensures Filter([s[0]] + t, p) == Filter(s, p) + tail
  {
    assert s[..1] == [s[0]];
    FilterAppend([s[0]], t, p);
    FilterSplit(s, 1, p);
    AppendAssoc(Filter([s[0]], p), Filter(s[1..], p), tail);
  }

  /** A condition every row meets filters nothing out. */
  lemma {:induction false} FilterAll<T(!new)>(s: seq<T>, p: T -> bool)
    requires forall x :: x in s ==> p(x)
    ensures Filter(s, p) == s
    decreases |s|
  {
    if |s| > 0 {
      assert s == s[..|s| - 1] + [s[|s| - 1]];
      FilterAll(s[..|s| - 1], p);
    }
  }

  /** A condition no row meets filters every row out. */
  lemma {:induction false} FilterNone<T(!new)>(s: seq<T>, p: T -> bool)
    requires forall x :: x in s ==> !p(x)
    ensures Filter(s, p) == []
    decreases |s|
  {
    if |s| > 0 {
      assert s == s[..|s| - 1] + [s[|s| - 1]];
      FilterNone(s[..|s| - 1], p);
    }
  }

  /** The first row a filter keeps is the first row of the input that meets
      the condition. */
  lemma {:induction false} FilterFirst<T(!new)>(s: seq<T>, p: T -> bool)
    requires |Filter(s, p)| > 0
    ensures exists i :: 0 <= i < |s| && s[i] == Filter(s, p)[0] && p(s[i]) && forall j :: 0 <= j < i ==> !p(s[j])
    decreases |s|
  {
    var q := s[..|s| - 1];
    var last := s[|s| - 1];
    assert s == q + [last];
    FilterSnoc(q, last, p);
    if |Filter(q, p)| > 0 {
      FilterFirst(q, p);
      var i :| 0 <= i < |q| && q[i] == Filter(q, p)[0] && p(q[i]) && forall j :: 0 <= j < i ==> !p(q[j]);
      assert s[i] == q[i];
      forall j | 0 <= j < i ensures !p(s[j]) { assert s[j] == q[j]; }
    } else {
      forall j | 0 <= j < |q| ensures !p(s[j]) {
        assert s[j] == q[j];
        assert q[j] in q;
      }
    }
  }

  /** Concatenation of `f(x)` over `s`: the rows a nested loop appends. */
  function FlatMap<T, U>(s: seq<T>, f: T -> seq<U>): seq<U>
    decreases |s|
  {
    if |s| == 0 then [] else FlatMap(s[..|s| - 1], f) + f(s[|s| - 1])
  }

  lemma {:induction false} FlatMapMember<T(!new), U(!new)>(s: seq<T>, f: T -> seq<U>)
    ensures forall y :: y in FlatMap(s, f) <==> exists x :: x in s && y in f(x)
    decreases |s|
  {
    if |s| > 0 {
      FlatMapMember(s[..|s| - 1], f);
      assert forall x :: x in s <==> x in s[..|s| - 1] || x == s[|s| - 1] by {
        assert s == s[..|s| - 1] + [s[|s| - 1]];
      }
    }
  }

  /** An output element comes from some input element. */
  lemma FlatMapPick<T(!new), U(!new)>(s: seq<T>, f: T -> seq<U>, y: U)
    requires y in FlatMap(s, f)
    ensures exists x :: x in s && y in f(x)
  {
    FlatMapMember(s, f);
  }

  /** The input element an output element comes from. */
  lemma FlatMapWitness<T(!new), U(!new)>(s: seq<T>, f: T -> seq<U>, y: U) returns (x: T)
    requires y in FlatMap(s, f)
    ensures x in s && y in f(x)
  {
    FlatMapMember(s, f);
    x :| x in s && y in f(x);
  }

  lemma FlatMapSnoc<T, U>(s: seq<T>, x: T, f: T -> seq<U>)
    ensures FlatMap(s + [x], f) == FlatMap(s, f) + f(x)
  {
    assert (s + [x])[..|s + [x]| - 1] == s;
  }

  /** One more element of the input: the loop step of a nested append. */
  lemma FlatMapPrefix<T, U>(s: seq<T>, k: int, f: T -> seq<U>)
    requires 0 <= k < |s|
    ensures FlatMap(s[..k + 1], f) == FlatMap(s[..k], f) + f(s[k])
  {
    assert s[..k + 1][..k] == s[..k];
  }

  /** No two rows of `s` share a key. */
  predicate UniqueKeys<T, K(==)>(s: seq<T>, key: T -> K) {
    forall i, j :: 0 <= i < j < |s| ==> key(s[i]) != key(s[j])
  }

  /** Row `i` is the first of `s` with its key. */
  predicate FirstOfKey<T, K(==)>(s: seq<T>, key: T -> K, i: int)
    requires 0 <= i < |s|
  {
    forall j :: 0 <= j < i ==> key(s[j]) != key(s[i])
  }

  /** Some row of `s` has key `k`. */
  predicate HasKey<T, K(==)>(s: seq<T>, key: T -> K, k: K) {
    exists i :: 0 <= i < |s| && key(s[i]) == k
  }

  /** `drop_duplicates(subset=key, keep="first")`: keeps, in order, the first
      row for every key. */
  function KeepFirstBy<T(==), K(==)>(s: seq<T>, key: T -> K): (r: seq<T>)
    ensures |r| <= |s|
    ensures forall x :: x in r ==> x in s
    ensures UniqueKeys(r, key)
    decreases |s|
  {
    if |s| == 0 then []
    else
      var p := s[..|s| - 1];
      var last := s[|s| - 1];
      var prev := KeepFirstBy(p, key);
      if HasKey(p, key, key(last)) then prev
      else
        assert forall y :: y in prev ==> key(y) != key(last) by {
          forall y | y in prev ensures key(y) != key(last) {
            var i :| 0 <= i < |p| && p[i] == y;
          }
        }
        prev + [last]
  }

  /** Appending a row keeps it exactly when its key is new. */
  lemma KeepFirstBySnoc<T, K>(p: seq<T>, x: T, key: T -> K)
    ensures KeepFirstBy(p + [x], key) == if HasKey(p, key, key(x)) then KeepFirstBy(p, key) else KeepFirstBy(p, key) + [x]
  {
    assert (p + [x])[..|p + [x]| - 1] == p;
  }

  /** Every key of the input survives deduplication, carried by the row that
      first had it. */
  lemma {:induction false} KeepFirstByKeeps<T, K>(s: seq<T>, key: T -> K, i: int)
    requires 0 <= i < |s|
    ensures HasKey(KeepFirstBy(s, key), key, key(s[i]))
    ensures FirstOfKey(s, key, i) ==> s[i] in KeepFirstBy(s, key)
    decreases |s|
  {
    var p := s[..|s| - 1];
    var last := s[|s| - 1];
    var prev := KeepFirstBy(p, key);
    if i < |s| - 1 {
      assert p[i] == s[i];
      KeepFirstByKeeps(p, key, i);
      if FirstOfKey(s, key, i) {
        assert FirstOfKey(p, key, i) by {
          forall j | 0 <= j < i ensures key(p[j]) != key(p[i]) { assert p[j] == s[j]; }
        }
      }
      var k :| 0 <= k < |prev| && key(prev[k]) == key(s[i]);
      assert KeepFirstBy(s, key)[k] == prev[k];
    } else if HasKey(p, key, key(last)) {
      var j :| 0 <= j < |p| && key(p[j]) == key(last);
      assert p[j] == s[j];
      KeepFirstByKeeps(p, key, j);
      var k :| 0 <= k < |prev| && key(prev[k]) == key(s[i]);
    } else {
      var r := KeepFirstBy(s, key);
      assert r[|r| - 1] == last;
    }
  }

  function Identity<T>(x: T): T {
    x
  }

  /** `drop_duplicates()` over whole rows: the first copy of every row, in
      order. */
  function Dedup<T(==,!new)>(s: seq<T>): (r: seq<T>)
    ensures |r| <= |s|
    ensures forall x :: x in r <==> x in s
    ensures Distinct(r)
  {
    var r := KeepFirstBy(s, Identity);
    assert forall x :: x in s ==> x in r by {
      forall x | x in s ensures x in r {
        var i :| 0 <= i < |s| && s[i] == x;
        KeepFirstByKeeps(s, Identity, i);
      }
    }
    r
  }

  /** A sequence without repeats has as many distinct elements as rows. */
  lemma {:induction false} DistinctCard<T>(s: seq<T>)
    requires Distinct(s)
    ensures |set x | x in s| == |s|
    decreases |s|
  {
    if |s| > 0 {
      var q := s[..|s| - 1];
      var last := s[|s| - 1];
      DistinctCard(q);
      assert s == q + [last];
      assert (set x | x in s) == (set x | x in q) + {last};
      assert last !in (set x | x in q);
    }
  }

  /** Filtering keeps a sequence free of repeats. */
  lemma {:induction false} FilterDistinct<T(!new)>(s: seq<T>, p: T -> bool)
    requires Distinct(s)
    ensures Distinct(Filter(s, p))
    decreases |s|
  {
    if |s| > 0 {
      var q := s[..|s| - 1];
      var last := s[|s| - 1];
      assert s == q + [last];
      FilterDistinct(q, p);
      assert last !in q;
      assert last !in Filter(q, p);
    }
  }

  /** `[f(x) for x in s]`. */
  function Map<T, U>(s: seq<T>, f: T -> U): (r: seq<U>)
    ensures |r| == |s| && forall i :: 0 <= i < |s| ==> r[i] == f(s[i])
  {
    seq(|s|, i requires 0 <= i < |s| => f(s[i]))
  }

  lemma MapPrefix<T, U>(s: seq<T>, k: int, f: T -> U)
    requires 0 <= k < |s|
    ensures Map(s[..k + 1], f) == Map(s[..k], f) + [f(s[k])]
  {
    assert Map(s[..k + 1], f) == Map(s[..k], f) + [f(s[k])];
  }

  lemma MapAppend<T, U>(a: seq<T>, b: seq<T>, f: T -> U)
    ensures Map(a + b, f) == Map(a, f) + Map(b, f)
  {
    assert Map(a + b, f) == Map(a, f) + Map(b, f);
  }
  /** Concatenation is associative. */
  lemma AppendAssoc<T>(a: seq<T>, b: seq<T>, c: seq<T>)
    ensures (a + b) + c == a + (b + c)
  {
  }

  /** Filtering then mapping a sequence that grows by one element. */
  lemma MapFilterSnoc<T(!new), U>(s: seq<T>, x: T, p: T -> bool, f: T -> U)
    ensures Map(Filter(s + [x], p), f) == Map(Filter(s, p), f) + (if p(x) then [f(x)] else [])
  {
    FilterSnoc(s, x, p);
    MapAppend(Filter(s, p), if p(x) then [x] else [], f);
  }


  /** Appending three logs in turn appends their concatenation. */
  lemma AppendThree<T>(log: seq<T>, a: seq<T>, b: seq<T>, c: seq<T>)
    ensures log + a + b + c == log + (a + b + c)
  {
    assert log + a + b + c == log + (a + b + c);
  }

  /** The complement of a row condition. */
  function Not<T>(p: T -> bool): T -> bool {
    x => !p(x)
  }

  /** A condition and its complement split the rows between them. */
  lemma {:induction false} FilterPartition<T(!new)>(s: seq<T>, p: T -> bool)
    ensures |Filter(s, p)| + |Filter(s, Not(p))| == |s|
    decreases |s|
  {
    if |s| > 0 {
      FilterPartition(s[..|s| - 1], p);
    }
  }

  /** Deduplicating rows whose keys are already unique changes nothing. */
  lemma {:induction false} KeepFirstByUnique<T, K>(s: seq<T>, key: T -> K)
    requires UniqueKeys(s, key)
    ensures KeepFirstBy(s, key) == s
    decreases |s|
  {
    if |s| > 0 {
      var p := s[..|s| - 1];
      assert UniqueKeys(p, key) by {
        forall i, j | 0 <= i < j < |p| ensures key(p[i]) != key(p[j]) { assert p[i] == s[i] && p[j] == s[j]; }
      }
      KeepFirstByUnique(p, key);
      assert !HasKey(p, key, key(s[|s| - 1])) by {
        forall i | 0 <= i < |p| ensures key(p[i]) != key(s[|s| - 1]) { assert p[i] == s[i]; }
      }
      assert s == p + [s[|s| - 1]];
    }
  }

  /** Filtering keeps keys unique. */
  lemma {:induction false} FilterUniqueKeys<T(!new), K>(s: seq<T>, p: T -> bool, key: T -> K)
    requires UniqueKeys(s, key)
    ensures UniqueKeys(Filter(s, p), key)
    decreases |s|
  {
    if |s| > 0 {
      var q := s[..|s| - 1];
      var last := s[|s| - 1];
      assert UniqueKeys(q, key) by {
        forall i, j | 0 <= i < j < |q| ensures key(q[i]) != key(q[j]) { assert q[i] == s[i] && q[j] == s[j]; }
      }
      FilterUniqueKeys(q, p, key);
      var f := Filter(q, p);
      assert forall y :: y in f ==> key(y) != key(last) by {
        forall y | y in f ensures key(y) != key(last) {
          var i :| 0 <= i < |q| && q[i] == y;
          assert s[i] == y;
        }
      }
      if p(last) {
        var r := f + [last];
        forall i, j | 0 <= i < j < |r| ensures key(r[i]) != key(r[j]) {
          if j == |r| - 1 { assert r[i] in f; }
        }
      }
    }
  }
}
