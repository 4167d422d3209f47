/**
 * Small shared vocabulary: optional values, results with an error side, and
 * the two list operations every check and report is built from: counting the
 * elements that satisfy a condition (SQL `COUNT(*) ... WHERE`, Python
 * `sum(1 for ...)`) and keeping them in order (a list comprehension with a
 * filter).
 */
module Basics {

  datatype Option<T> = None | Some(value: T) {
    /** Python's `d.get(key, default)`. */
    function GetOr(default: T): T {
      if Some? then value else default
    }
  }

  datatype Result<T, E> = Success(value: T) | Failure(error: E)

  /** Number of elements of `xs` satisfying `p`. */
  function Count<T>(xs: seq<T>, p: T -> bool): (n: nat)
    ensures n <= |xs|
  {
    if xs == [] then 0
    else (if p(xs[0]) then 1 else 0) + Count(xs[1..], p)
  }

  /** The elements of `xs` satisfying `p`, in their original order. */
  function Filter<T>(xs: seq<T>, p: T -> bool): (r: seq<T>)
    ensures |r| <= |xs|
    ensures forall i :: 0 <= i < |r| ==> p(r[i])
  {
    if xs == [] then []
    else if p(xs[0]) then [xs[0]] + Filter(xs[1..], p)
    else Filter(xs[1..], p)
  }

  /** A count is zero exactly when no element satisfies the condition. */
  lemma {:induction false} CountZero<T>(xs: seq<T>, p: T -> bool)
    ensures Count(xs, p) == 0 <==> forall i :: 0 <= i < |xs| ==> !p(xs[i])
  {
    if xs != [] {
      assert forall i :: 1 <= i < |xs| ==> xs[i] == xs[1..][i - 1];
      CountZero(xs[1..], p);
    }
  }

  lemma {:induction false} CountAppend<T>(a: seq<T>, b: seq<T>, p: T -> bool)
    ensures Count(a + b, p) == Count(a, p) + Count(b, p)
  {
    if a == [] {
      assert a + b == b;
    } else {
      assert (a + b)[1..] == a[1..] + b;
      CountAppend(a[1..], b, p);
    }
  }

  lemma {:induction false} FilterAppend<T>(a: seq<T>, b: seq<T>, p: T -> bool)
    ensures Filter(a + b, p) == Filter(a, p) + Filter(b, p)
  {
    if a == [] {
      assert a + b == b;
    } else {
      assert (a + b)[1..] == a[1..] + b;
      FilterAppend(a[1..], b, p);
    }
  }

  /** Counting is the length of the filtered list. */
  lemma {:induction false} CountIsFilterLength<T>(xs: seq<T>, p: T -> bool)
    ensures Count(xs, p) == |Filter(xs, p)|
  {
    if xs != [] {
      CountIsFilterLength(xs[1..], p);
    }
  }

  /** Every element satisfying `p` is kept, and nothing else is added. */
  lemma {:induction false} FilterMembers<T>(xs: seq<T>, p: T -> bool, x: T)
    ensures x in Filter(xs, p) <==> x in xs && p(x)
  {
    if xs != [] {
      FilterMembers(xs[1..], p, x);
      assert xs == [xs[0]] + xs[1..];
    }
  }

  /** Counts of two conditions that agree on every element are equal. */
  lemma {:induction false} CountSame<T>(xs: seq<T>, p: T -> bool, q: T -> bool)
    requires forall i :: 0 <= i < |xs| ==> (p(xs[i]) <==> q(xs[i]))
    ensures Count(xs, p) == Count(xs, q)
  {
    if xs != [] {
      assert forall i :: 1 <= i < |xs| ==> xs[i] == xs[1..][i - 1];
      CountSame(xs[1..], p, q);
    }
  }

  /** A weaker condition never counts fewer elements. */
  lemma {:induction false} CountMonotone<T>(xs: seq<T>, p: T -> bool, q: T -> bool)
    requires forall i :: 0 <= i < |xs| ==> p(xs[i]) ==> q(xs[i])
    ensures Count(xs, p) <= Count(xs, q)
  {
    if xs != [] {
      assert forall i :: 1 <= i < |xs| ==> xs[i] == xs[1..][i - 1];
      CountMonotone(xs[1..], p, q);
    }
  }

  /**
   * Splitting a list by a condition loses nothing: the kept and the rejected
   * elements together have the input's length and its elements, counted with
   * multiplicity.
   */
  lemma {:induction false} FilterPartition<T>(xs: seq<T>, p: T -> bool)
    ensures |Filter(xs, p)| + |Filter(xs, Not(p))| == |xs|
    ensures multiset(Filter(xs, p)) + multiset(Filter(xs, Not(p))) == multiset(xs)
  {
    if xs != [] {
      FilterPartition(xs[1..], p);
      assert xs == [xs[0]] + xs[1..];
    }
  }

  /** The distinct elements of a list, each at its first occurrence. */
  function Dedup<T(==)>(xs: seq<T>): (r: seq<T>)
    ensures forall i, j :: 0 <= i < j < |r| ==> r[i] != r[j]
    ensures forall i :: 0 <= i < |xs| ==> xs[i] in r
    ensures forall i :: 0 <= i < |r| ==> r[i] in xs
  {
    if xs == [] then []
    else
      var rest := Dedup(xs[..|xs| - 1]);
      assert forall i :: 0 <= i < |xs| - 1 ==> xs[i] == xs[..|xs| - 1][i];
      if xs[|xs| - 1] in rest then rest else rest + [xs[|xs| - 1]]
  }

  /** The opposite condition. */
  function Not<T>(p: T -> bool): T -> bool {
    x => !p(x)
  }

  /** Both conditions at once. */
  function Both<T>(p: T -> bool, q: T -> bool): T -> bool {
    x => p(x) && q(x)
  }

  /** Counting within a filtered list is counting both conditions at once. */
  lemma {:induction false} CountFilter<T>(xs: seq<T>, p: T -> bool, q: T -> bool)
    ensures Count(Filter(xs, p), q) == Count(xs, Both(p, q))
  {
    if xs != [] {
      CountFilter(xs[1..], p, q);
    }
  }

  /** The positions of `xs` whose element satisfies `p`. */
  ghost function Positions<T>(xs: seq<T>, p: T -> bool): set<int> {
    set i | 0 <= i < |xs| && p(xs[i])
  }

  /**
   * A count is the size of the set of positions that satisfy the condition:
   * the cardinality of the violating set.
   */
  lemma {:induction false} CountIsIndexSetSize<T>(xs: seq<T>, p: T -> bool)
    ensures Count(xs, p) == |Positions(xs, p)|
  {
    if xs != [] {
      var n := |xs| - 1;
      var init := xs[..n];
      assert xs == init + [xs[n]];
      CountAppend(init, [xs[n]], p);
      CountIsIndexSetSize(init, p);
      if p(xs[n]) {
        assert Positions(xs, p) == Positions(init, p) + {n};
      } else {
        assert Positions(xs, p) == Positions(init, p);
      }
    }
  }

  /** Filtering by a condition every element meets keeps the whole list. */
  lemma {:induction false} FilterAll<T>(xs: seq<T>, p: T -> bool)
    requires forall i :: 0 <= i < |xs| ==> p(xs[i])
    ensures Filter(xs, p) == xs
  {
    if xs != [] {
      assert forall i :: 1 <= i < |xs| ==> xs[i] == xs[1..][i - 1];
      FilterAll(xs[1..], p);
    }
  }

  /** Filtering by a condition no element meets keeps nothing. */
  lemma {:induction false} FilterNone<T>(xs: seq<T>, p: T -> bool)
    requires forall i :: 0 <= i < |xs| ==> !p(xs[i])
    ensures Filter(xs, p) == []
  {
    if xs != [] {
      assert forall i :: 1 <= i < |xs| ==> xs[i] == xs[1..][i - 1];
      FilterNone(xs[1..], p);
    }
  }

  /** Every element satisfies the condition or its opposite, never both. */
  lemma CountComplement<T>(xs: seq<T>, p: T -> bool)
    ensures Count(xs, p) + Count(xs, Not(p)) == |xs|
  {
    FilterPartition(xs, p);
    CountIsFilterLength(xs, p);
    CountIsFilterLength(xs, Not(p));
  }
}
