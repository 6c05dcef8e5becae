/**
 * Sequence helpers that stand for Python list idioms used throughout the
 * model: list flattening, comprehension filters, slicing into fixed-size
 * chunks and first-occurrence de-duplication.
 */
module Seqs {
  import opened Wrappers

  /** Concatenation of a list of lists (`sum(ss, [])`). */
  function Flatten<T>(ss: seq<seq<T>>): seq<T>
  {
    if ss == [] then [] else ss[0] + Flatten(ss[1..])
  }

  lemma {:induction false} FlattenAppend<T>(a: seq<seq<T>>, b: seq<seq<T>>)
    ensures Flatten(a + b) == Flatten(a) + Flatten(b)
  {
    if a == [] {
      assert a + b == b;
    } else {
      assert (a + b)[1..] == a[1..] + b;
      FlattenAppend(a[1..], b);
    }
  }

  lemma FlattenSnoc<T>(a: seq<seq<T>>, x: seq<T>)
    ensures Flatten(a + [x]) == Flatten(a) + x
  {
    FlattenAppend(a, [x]);
    assert Flatten([x]) == x + Flatten([]);
  }

  /** `[x for x in s if p(x)]` */
  function Filter<T>(s: seq<T>, p: T -> bool): (r: seq<T>)
    ensures |r| <= |s|
    ensures forall x :: x in r ==> x in s && p(x)
  {
    if s == [] then []
    else
      var front := s[..|s| - 1];
      var x := s[|s| - 1];
      assert forall y :: y in front ==> y in s;
      if p(x) then Filter(front, p) + [x] else Filter(front, p)
  }

  /** Every element of `s` that satisfies `p` is kept. */
  lemma {:induction false} FilterKeeps<T>(s: seq<T>, p: T -> bool, x: T)
    requires x in s && p(x)
    ensures x in Filter(s, p)
  {
    var front := s[..|s| - 1];
    if x != s[|s| - 1] {
      assert s == front + [s[|s| - 1]];
      FilterKeeps(front, p, x);
    }
  }

  lemma FilterSnoc<T>(a: seq<T>, x: T, p: T -> bool)
    ensures Filter(a + [x], p) == if p(x) then Filter(a, p) + [x] else Filter(a, p)
  {
    assert (a + [x])[..|a|] == a;
  }

  lemma FilterPrefix<T>(s: seq<T>, i: nat, p: T -> bool)
    requires i < |s|
    ensures Filter(s[..i + 1], p) == if p(s[i]) then Filter(s[..i], p) + [s[i]] else Filter(s[..i], p)
  {
    assert s[..i + 1] == s[..i] + [s[i]];
    FilterSnoc(s[..i], s[i], p);
  }

  lemma {:induction false} FilterAppend<T>(a: seq<T>, b: seq<T>, p: T -> bool)
    ensures Filter(a + b, p) == Filter(a, p) + Filter(b, p)
  {
    if b == [] {
      assert a + b == a;
    } else {
      var front := b[..|b| - 1];
      var x := b[|b| - 1];
      assert a + b == (a + front) + [x];
      assert b == front + [x];
      FilterAppend(a, front, p);
      FilterSnoc(a + front, x, p);
      FilterSnoc(front, x, p);
    }
  }

  lemma FilterCons<T>(s: seq<T>, p: T -> bool)
    requires s != []
    ensures Filter(s, p) == if p(s[0]) then [s[0]] + Filter(s[1..], p) else Filter(s[1..], p)
  {
    assert s == [s[0]] + s[1..];
    FilterAppend([s[0]], s[1..], p);
    assert [s[0]][..0] == [];
  }

  /** `[f(x) for x in s]` */
  function Map<T, U>(s: seq<T>, f: T -> U): (r: seq<U>)
    ensures |r| == |s|
  {
    if s == [] then [] else [f(s[0])] + Map(s[1..], f)
  }

  /** Element `i` of the mapped sequence is `f` of element `i`. */
  lemma {:induction false} MapIndex<T, U>(s: seq<T>, f: T -> U)
    ensures forall i :: 0 <= i < |s| ==> Map(s, f)[i] == f(s[i])
  {
    if s != [] {
      MapIndex(s[1..], f);
    }
  }

  lemma MapAppend<T, U>(a: seq<T>, b: seq<T>, f: T -> U)
    ensures Map(a + b, f) == Map(a, f) + Map(b, f)
  {
    MapIndex(a + b, f);
    MapIndex(a, f);
    MapIndex(b, f);
    assert forall i :: 0 <= i < |a + b| ==> Map(a + b, f)[i] == (Map(a, f) + Map(b, f))[i];
  }

  /** `sum(f(x) for x in s)` */
  function SumOf<T>(s: seq<T>, f: T -> nat): nat
  {
    if s == [] then 0 else SumOf(s[..|s| - 1], f) + f(s[|s| - 1])
  }

  /** Reading the next `n` elements of the rest of `s` after `k`. */
  lemma SliceStep<T>(s: seq<T>, k: nat, n: nat, rest: seq<T>)
    requires k + n <= |s| && rest == s[k..]
    ensures rest[..n] == s[k..k + n]
    ensures rest[n..] == s[k + n..]
    ensures s[..k + n] == s[..k] + s[k..k + n]
  {
  }

  lemma SumOfPrefix<T>(s: seq<T>, i: nat, f: T -> nat)
    requires i < |s|
    ensures SumOf(s[..i + 1], f) == SumOf(s[..i], f) + f(s[i])
  {
    assert s[..i + 1][..i] == s[..i];
  }

  lemma MapPrefix<T, U>(s: seq<T>, i: nat, f: T -> U)
    requires i < |s|
    ensures Map(s[..i + 1], f) == Map(s[..i], f) + [f(s[i])]
  {
    assert s[..i + 1] == s[..i] + [s[i]];
    MapAppend(s[..i], [s[i]], f);
  }

  /** Number of occurrences of `x` in `s` (`s.count(x)`). */
  function Count<T(==)>(s: seq<T>, x: T): (n: nat)
    ensures n <= |s|
    ensures n > 0 <==> x in s
  {
    if s == [] then 0 else (if s[0] == x then 1 else 0) + Count(s[1..], x)
  }

  /** Appending behind the first element. */
  lemma TailSnoc<T>(s: seq<T>, x: T)
    requires |s| >= 1
    ensures (s + [x])[1..] == s[1..] + [x]
    ensures s + [x] == [s[0]] + (s[1..] + [x])
  {
  }

  lemma AppendSnoc<T>(a: seq<T>, b: seq<T>, x: T)
    ensures a + (b + [x]) == (a + b) + [x]
  {
  }

  /** Mapping by a function that no other element shares `x`'s image with keeps the count of `x`. */
  lemma {:induction false} CountMap<T, U>(s: seq<T>, f: T -> U, x: T)
    requires forall y :: f(y) == f(x) ==> y == x
    ensures Count(Map(s, f), f(x)) == Count(s, x)
  {
    if s != [] {
      assert Map(s, f)[1..] == Map(s[1..], f);
      CountMap(s[1..], f, x);
    }
  }

  lemma {:induction false} CountAppend<T>(a: seq<T>, b: seq<T>, x: T)
    ensures Count(a + b, x) == Count(a, x) + Count(b, x)
  {
    if a != [] {
      assert (a + b)[1..] == a[1..] + b;
      CountAppend(a[1..], b, x);
    } else {
      assert a + b == b;
    }
  }

  /**
   * Filtering keeps every occurrence of an element that passes the test and
   * none of one that fails it.
   */
  lemma {:induction false} CountFilter<T>(s: seq<T>, p: T -> bool, x: T)
    ensures Count(Filter(s, p), x) == if p(x) then Count(s, x) else 0
  {
    if s != [] {
      var front := s[..|s| - 1];
      var last := s[|s| - 1];
      assert s == front + [last];
      CountFilter(front, p, x);
      CountAppend(front, [last], x);
      if p(last) {
        CountAppend(Filter(front, p), [last], x);
      }
    }
  }

  predicate NoDuplicates<T(==)>(s: seq<T>)
  {
    forall i, j :: 0 <= i < j < |s| ==> s[i] != s[j]
  }

  /**
   * The distinct elements of `s` in order of first occurrence: what a dict
   * keyed by the elements keeps, and the order this model picks for
   * `list(set(s))`, whose order Python leaves unspecified.
   */
  function Distinct<T(==)>(s: seq<T>): (r: seq<T>)
    ensures NoDuplicates(r)
    ensures Elements(r) == Elements(s)
    ensures |r| <= |s|
  {
    if s == [] then []
    else
      var r := Distinct(s[..|s| - 1]);
      assert s == s[..|s| - 1] + [s[|s| - 1]];
      assert Elements(s) == Elements(s[..|s| - 1]) + {s[|s| - 1]};
      if s[|s| - 1] in r then r else r + [s[|s| - 1]]
  }

  /** The set of elements of a sequence. */
  function Elements<T>(s: seq<T>): set<T>
  {
    set x | x in s
  }

  lemma {:induction false} DistinctCardinality<T>(s: seq<T>)
    ensures |Distinct(s)| == |Elements(s)|
  {
    DistinctSizeOfSet(Distinct(s));
    assert Elements(Distinct(s)) == Elements(s);
  }

  lemma {:induction false} DistinctSizeOfSet<T>(s: seq<T>)
    requires NoDuplicates(s)
    ensures |s| == |Elements(s)|
  {
    if s != [] {
      var init := s[..|s| - 1];
      var last := s[|s| - 1];
      assert NoDuplicates(init);
      DistinctSizeOfSet(init);
      assert s == init + [last];
      assert Elements(s) == Elements(init) + {last};
      assert last !in Elements(init);
    }
  }

  /** The first element satisfying `p`, if any (a search loop with `break`). */
  function FirstMatch<T>(s: seq<T>, p: T -> bool): (r: Option<T>)
    ensures r.Some? ==> r.value in s && p(r.value)
    ensures r.None? ==> forall x :: x in s ==> !p(x)
  {
    if s == [] then None
    else if p(s[0]) then Some(s[0])
    else FirstMatch(s[1..], p)
  }

  lemma {:induction false} FirstMatchAppend<T>(a: seq<T>, b: seq<T>, p: T -> bool)
    ensures FirstMatch(a + b, p) == if FirstMatch(a, p).Some? then FirstMatch(a, p) else FirstMatch(b, p)
  {
    if a != [] {
      assert (a + b)[0] == a[0];
      assert (a + b)[1..] == a[1..] + b;
      FirstMatchAppend(a[1..], b, p);
    } else {
      assert a + b == b;
    }
  }

  /** Searching a filtered list finds what searching the list for both tests finds. */
  lemma {:induction false} FirstMatchFilter<T>(s: seq<T>, p: T -> bool, q: T -> bool, both: T -> bool)
    requires forall x :: both(x) == (p(x) && q(x))
    ensures FirstMatch(Filter(s, p), q) == FirstMatch(s, both)
  {
    if s != [] {
      var front := s[..|s| - 1];
      var x := s[|s| - 1];
      assert s == front + [x];
      FirstMatchFilter(front, p, q, both);
      FirstMatchAppend(front, [x], both);
      if p(x) {
        FirstMatchAppend(Filter(front, p), [x], q);
      }
    }
  }

  /** Dropping later repeats does not change what a search finds first. */
  lemma {:induction false} FirstMatchDistinct<T>(s: seq<T>, p: T -> bool)
    ensures FirstMatch(Distinct(s), p) == FirstMatch(s, p)
  {
    if s != [] {
      var front := s[..|s| - 1];
      var x := s[|s| - 1];
      var r := Distinct(front);
      assert s == front + [x];
      FirstMatchDistinct(front, p);
      FirstMatchAppend(front, [x], p);
      if x in r {
        assert x in Elements(r);
      } else {
        FirstMatchAppend(r, [x], p);
      }
    }
  }

  /** A filter that no element passes keeps nothing. */
  lemma {:induction false} FilterNone<T>(s: seq<T>, p: T -> bool)
    requires forall x :: x in s ==> !p(x)
    ensures Filter(s, p) == []
  {
    if s != [] {
      var front := s[..|s| - 1];
      assert forall x :: x in front ==> x in s;
      FilterNone(front, p);
    }
  }

  /** Filters by tests that agree everywhere are equal. */
  lemma {:induction false} FilterSameTest<T>(s: seq<T>, p: T -> bool, q: T -> bool)
    requires forall x :: p(x) == q(x)
    ensures Filter(s, p) == Filter(s, q)
  {
    if s != [] {
      FilterSameTest(s[..|s| - 1], p, q);
    }
  }

  /** Filters by tests that agree on the elements are equal. */
  lemma {:induction false} FilterSameOn<T>(s: seq<T>, p: T -> bool, q: T -> bool)
    requires forall x :: x in s ==> p(x) == q(x)
    ensures Filter(s, p) == Filter(s, q)
  {
    if s != [] {
      assert forall x :: x in s[..|s| - 1] ==> x in s;
      FilterSameOn(s[..|s| - 1], p, q);
    }
  }

  /** A filter that every element passes keeps the whole list. */
  lemma {:induction false} FilterAll<T>(s: seq<T>, p: T -> bool)
    requires forall x :: x in s ==> p(x)
    ensures Filter(s, p) == s
  {
    if s != [] {
      var front := s[..|s| - 1];
      assert forall x :: x in front ==> x in s;
      FilterAll(front, p);
    }
  }

  /**
   * Filtering by either of two exclusive tests keeps the elements the two
   * filters keep, as a multiset.
   */
  lemma {:induction false} FilterPartition<T>(s: seq<T>, p: T -> bool, q: T -> bool, either: T -> bool)
    requires forall x :: either(x) == (p(x) || q(x))
    requires forall x :: !(p(x) && q(x))
    ensures multiset(Filter(s, either)) == multiset(Filter(s, p)) + multiset(Filter(s, q))
  {
    if s != [] {
      FilterPartition(s[..|s| - 1], p, q, either);
    }
  }

  /**
   * `[s[i:i + n] for i in range(0, len(s), n)]`: consecutive slices of
   * length `n`, the last one possibly shorter.
   */
  function Chunks<T>(s: seq<T>, n: nat): (r: seq<seq<T>>)
    requires n > 0
    ensures Flatten(r) == s
    ensures forall k :: 0 <= k < |r| ==> 0 < |r[k]| <= n
    ensures forall k :: 0 <= k < |r| - 1 ==> |r[k]| == n
    ensures |r| <= |s|
    decreases |s|
  {
    if s == [] then []
    else if |s| <= n then
      assert Flatten([s]) == s + Flatten([]);
      [s]
    else
      var rest := Chunks(s[n..], n);
      assert Flatten([s[..n]] + rest) == s[..n] + Flatten(rest);
      assert s[..n] + s[n..] == s;
      [s[..n]] + rest
  }

  /**
   * Chunks are determined by their sizes: a list of slices that are all full
   * except a non-empty last one is the chunking of its concatenation.
   */
  lemma {:induction false} ChunksOfFlatten<T>(cs: seq<seq<T>>, n: nat)
    requires n > 0
    requires forall k :: 0 <= k < |cs| ==> 0 < |cs[k]| <= n
    requires forall k :: 0 <= k < |cs| - 1 ==> |cs[k]| == n
    ensures Chunks(Flatten(cs), n) == cs
  {
    if cs != [] {
      var s := Flatten(cs);
      assert s == cs[0] + Flatten(cs[1..]);
      if |cs| == 1 {
        assert Flatten(cs[1..]) == [];
      } else {
        ChunksOfFlatten(cs[1..], n);
        assert |Flatten(cs[1..])| > 0 by {
          assert Flatten(cs[1..]) == cs[1] + Flatten(cs[2..]);
        }
        assert s[..n] == cs[0];
        assert s[n..] == Flatten(cs[1..]);
      }
    }
  }
}
