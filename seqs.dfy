/** Generic sequence helpers: filtering and sorting by an integer key. */
module Seqs {

  /** The elements of `s` that satisfy `p`, in their original order. */
  function Filter<T>(p: T -> bool, s: seq<T>): (r: seq<T>)
    ensures |r| <= |s|
    ensures forall x :: x in r ==> x in s && p(x)
    decreases |s|
  {
    if s == [] then []
    else if p(s[|s| - 1]) then Filter(p, s[..|s| - 1]) + [s[|s| - 1]]
    else Filter(p, s[..|s| - 1])
  }

  lemma {:induction false} FilterAppend<T>(p: T -> bool, s: seq<T>, x: T)
    ensures Filter(p, s + [x]) == if p(x) then Filter(p, s) + [x] else Filter(p, s)
  {
    assert (s + [x])[..|s + [x]| - 1] == s;
  }

  lemma {:induction false} FilterAll<T>(p: T -> bool, s: seq<T>)
    requires forall x :: x in s ==> p(x)
    ensures Filter(p, s) == s
    decreases |s|
  {
    if s != [] {
      FilterAll(p, s[..|s| - 1]);
      assert s[..|s| - 1] + [s[|s| - 1]] == s;
    }
  }

  lemma {:induction false} FilterNone<T>(p: T -> bool, s: seq<T>)
    requires forall x :: x in s ==> !p(x)
    ensures Filter(p, s) == []
    decreases |s|
  {
    if s != [] {
      FilterNone(p, s[..|s| - 1]);
    }
  }

  lemma {:induction false} FilterConcat<T>(p: T -> bool, a: seq<T>, b: seq<T>)
    ensures Filter(p, a + b) == Filter(p, a) + Filter(p, b)
    decreases |b|
  {
    if b == [] {
      assert a + b == a;
    } else {
      var init, last := b[..|b| - 1], b[|b| - 1];
      var kept := if p(last) then [last] else [];
      assert b == init + [last];
      assert a + b == (a + init) + [last];
      calc {
        Filter(p, a + b);
        { FilterAppend(p, a + init, last); }
        Filter(p, a + init) + kept;
        { FilterConcat(p, a, init); }
        (Filter(p, a) + Filter(p, init)) + kept;
        Filter(p, a) + (Filter(p, init) + kept);
        { FilterAppend(p, init, last); }
        Filter(p, a) + Filter(p, b);
      }
    }
  }

  /** Splitting a sequence into the part that satisfies `p` and the part that satisfies its negation `q` loses nothing. */
  lemma {:induction false} FilterPartition<T>(p: T -> bool, q: T -> bool, s: seq<T>)
    requires forall x :: q(x) == !p(x)
    ensures multiset(Filter(p, s)) + multiset(Filter(q, s)) == multiset(s)
    decreases |s|
  {
    if s != [] {
      var init, last := s[..|s| - 1], s[|s| - 1];
      FilterPartition(p, q, init);
      assert init + [last] == s;
    }
  }

  predicate SortedBy<T>(s: seq<T>, f: T -> int)
  {
    forall i, j :: 0 <= i < j < |s| ==> f(s[i]) <= f(s[j])
  }

  /** Extending a prefix by one element. */
  lemma TakeNext<T>(s: seq<T>, i: nat)
    requires i < |s|
    ensures s[..i + 1] == s[..i] + [s[i]]
    ensures s[..i + 1][..i] == s[..i]
  {
  }

  /** The distinct elements of `s`, each where it first occurs: the order of first assignment. */
  function Dedup<T(==,!new)>(s: seq<T>): (r: seq<T>)
    ensures forall x :: x in r <==> x in s
    ensures forall i, j :: 0 <= i < j < |r| ==> r[i] != r[j]
    ensures s != [] ==> r != [] && r[0] == s[0]
    decreases |s|
  {
    if s == [] then []
    else
      var d, x := Dedup(s[..|s| - 1]), s[|s| - 1];
      assert s == s[..|s| - 1] + [x];
      if x in d then d else d + [x]
  }

  lemma DedupAppend<T(!new)>(s: seq<T>, x: T)
    ensures Dedup(s + [x]) == if x in Dedup(s) then Dedup(s) else Dedup(s) + [x]
  {
    assert (s + [x])[..|s|] == s;
  }

  /** The sequences of `ss` laid end to end. */
  function Concat<T>(ss: seq<seq<T>>): seq<T>
    decreases |ss|
  {
    if ss == [] then [] else Concat(ss[..|ss| - 1]) + ss[|ss| - 1]
  }

  lemma ConcatAppend<T>(ss: seq<seq<T>>, s: seq<T>)
    ensures Concat(ss + [s]) == Concat(ss) + s
  {
    assert (ss + [s])[..|ss|] == ss;
  }

  /** Appending `x` to a sequence without `y` puts `y` in it exactly when `x` is `y`, and only at the end. */
  lemma AppendAbsent<T>(xs: seq<T>, x: T, y: T)
    requires y !in xs
    ensures y in xs + [x] <==> x == y
    ensures forall i :: 0 <= i < |xs| ==> (xs + [x])[i] != y
  {
  }

  /**
   * `p` holds of element i of `xs`, element i of `ys`, the position where
   * run i starts when the runs are laid end to end, and run i itself.
   */
  ghost predicate Chained<A, B, T>(p: (A, B, nat, seq<T>) -> bool, xs: seq<A>, ys: seq<B>, runs: seq<seq<T>>)
    decreases |runs|
  {
    var n := |runs|;
    && |xs| == n && |ys| == n
    && (n > 0 ==>
          && Chained(p, xs[..n - 1], ys[..n - 1], runs[..n - 1])
          && p(xs[n - 1], ys[n - 1], |Concat(runs[..n - 1])|, runs[n - 1]))
  }

  lemma {:induction false} ChainedEach<A, B, T>(p: (A, B, nat, seq<T>) -> bool, xs: seq<A>, ys: seq<B>, runs: seq<seq<T>>, i: nat)
    requires Chained(p, xs, ys, runs) && i < |runs|
    ensures p(xs[i], ys[i], |Concat(runs[..i])|, runs[i])
    decreases |runs|
  {
    var n := |runs|;
    if i < n - 1 {
      ChainedEach(p, xs[..n - 1], ys[..n - 1], runs[..n - 1], i);
      assert runs[..n - 1][..i] == runs[..i];
    }
  }

  lemma ChainedAppend<A, B, T>(p: (A, B, nat, seq<T>) -> bool, xs: seq<A>, ys: seq<B>, runs: seq<seq<T>>, x: A, y: B, run: seq<T>)
    requires Chained(p, xs, ys, runs) && p(x, y, |Concat(runs)|, run)
    ensures Chained(p, xs + [x], ys + [y], runs + [run])
  {
    assert (xs + [x])[..|xs|] == xs;
    assert (ys + [y])[..|ys|] == ys;
    assert (runs + [run])[..|runs|] == runs;
  }

  /** Three pairs laid end to end. */
  lemma ThreePairs<T>(a: T, b: T, c: T, d: T, e: T, f: T)
    ensures [a, b] + [c, d] + [e, f] == [a, b, c, d, e, f]
  {
  }

  /** Six elements between a leading pair and a last one. */
  lemma Framed<T>(a: T, b: T, c: T, d: T, e: T, f: T, g: T, h: T, z: T)
    ensures [a, b] + [c, d, e, f, g, h] + [z] == [a, b, c, d, e, f, g, h, z]
  {
  }

  /** Inserts `x` into the sorted sequence `s` before the first element whose key exceeds its own. */
  function InsertBy<T>(x: T, s: seq<T>, f: T -> int): (r: seq<T>)
    requires SortedBy(s, f)
    ensures SortedBy(r, f)
    ensures multiset(r) == multiset(s) + multiset{x}
    decreases |s|
  {
    if s == [] then [x]
    else if f(x) <= f(s[0]) then [x] + s
    else
      var rest := InsertBy(x, s[1..], f);
      assert s == [s[0]] + s[1..];
      forall j | 0 <= j < |rest| ensures f(s[0]) <= f(rest[j]) {
        var y := rest[j];
        assert y in multiset(rest);
        if y != x {
          assert y in multiset(s[1..]);
          SortedFirstLeast(s, f, y);
        }
      }
      ConsSorted(s[0], rest, f);
      [s[0]] + rest
  }

  /** A head no greater than any element of a sorted tail keeps it sorted. */
  lemma SortedFirstLeast<T>(s: seq<T>, f: T -> int, y: T)
    requires SortedBy(s, f) && y in s
    ensures f(s[0]) <= f(y)
  {
    var k :| 0 <= k < |s| && s[k] == y;
    assert k == 0 || f(s[0]) <= f(s[k]);
  }

  lemma ConsSorted<T>(h: T, rest: seq<T>, f: T -> int)
    requires SortedBy(rest, f) && forall j :: 0 <= j < |rest| ==> f(h) <= f(rest[j])
    ensures SortedBy([h] + rest, f)
  {
    var r := [h] + rest;
    forall i, j | 0 <= i < j < |r| ensures f(r[i]) <= f(r[j]) {
      assert r[j] == rest[j - 1];
      if i > 0 {
        assert r[i] == rest[i - 1];
      }
    }
  }

  /** Ascending sort by the integer key `f`: the result is sorted and a permutation of the input. */
  function SortBy<T>(s: seq<T>, f: T -> int): (r: seq<T>)
    ensures SortedBy(r, f)
    ensures multiset(r) == multiset(s)
    decreases |s|
  {
    if s == [] then []
    else
      assert s == [s[0]] + s[1..];
      InsertBy(s[0], SortBy(s[1..], f), f)
  }
}
