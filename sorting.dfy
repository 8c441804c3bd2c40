/**
 * `Array.prototype.sort` with a comparator. The standard library's sort is
 * stable, so it is modelled by a stable insertion sort: an element that the
 * comparator does not place strictly before an earlier one stays after it.
 * `le(a, b)` holds when the comparator lets `a` come before `b`
 * (`compare(a, b) <= 0`).
 */
module Sorting {
  import opened Lists

  predicate SortedBy<T>(s: seq<T>, le: (T, T) -> bool) {
    forall i :: 0 < i < |s| ==> le(s[i - 1], s[i])
  }

  /** Every two elements of `xs` are comparable. */
  ghost predicate TotalOn<T(!new)>(xs: seq<T>, le: (T, T) -> bool) {
    forall a, b :: a in xs && b in xs ==> le(a, b) || le(b, a)
  }

  ghost predicate TransitiveOn<T(!new)>(xs: seq<T>, le: (T, T) -> bool) {
    forall a, b, c :: a in xs && b in xs && c in xs && le(a, b) && le(b, c) ==> le(a, c)
  }

  /** Places `x` after every leading element that may precede it. */
  function Insert<T>(x: T, ys: seq<T>, le: (T, T) -> bool): (r: seq<T>)
    ensures |r| == |ys| + 1
    ensures multiset(r) == multiset(ys) + multiset{x}
    ensures r[0] == x || (ys != [] && r[0] == ys[0])
  {
    if ys == [] then [x]
    else if le(ys[0], x) then
      assert ys == [ys[0]] + ys[1..];
      [ys[0]] + Insert(x, ys[1..], le)
    else [x] + ys
  }

  /** Sorts `xs`, taking its elements from first to last. */
  function SortBy<T>(xs: seq<T>, le: (T, T) -> bool): (r: seq<T>)
    ensures |r| == |xs|
    ensures multiset(r) == multiset(xs)
  {
    if xs == [] then []
    else
      assert xs == xs[..|xs| - 1] + [xs[|xs| - 1]];
      Insert(xs[|xs| - 1], SortBy(xs[..|xs| - 1], le), le)
  }

  lemma {:induction false} InsertSorted<T(!new)>(x: T, ys: seq<T>, le: (T, T) -> bool)
    requires SortedBy(ys, le)
    requires TotalOn(ys + [x], le)
    ensures SortedBy(Insert(x, ys, le), le)
  {
    if ys != [] {
      assert ys[0] in ys + [x] && x in ys + [x];
      if le(ys[0], x) {
        var rest := ys[1..];
        assert TotalOn(rest + [x], le) by {
          forall a | a in rest + [x] ensures a in ys + [x] {
            if a in rest { assert a in ys; }
          }
        }
        InsertSorted(x, rest, le);
        var r := Insert(x, ys, le);
        assert r == [ys[0]] + Insert(x, rest, le);
        assert |ys| > 1 ==> le(ys[0], ys[1]);
      }
    }
  }

  /** With a comparator that relates every two of its elements, the result is in order. */
  lemma {:induction false} SortBySorted<T(!new)>(xs: seq<T>, le: (T, T) -> bool)
    requires TotalOn(xs, le)
    ensures SortedBy(SortBy(xs, le), le)
  {
    if xs != [] {
      var init, last := xs[..|xs| - 1], xs[|xs| - 1];
      assert TotalOn(init, le) by {
        forall a | a in init ensures a in xs { }
      }
      SortBySorted(init, le);
      var s := SortBy(init, le);
      assert TotalOn(s + [last], le) by {
        forall a | a in s + [last] ensures a in xs {
          if a in s {
            assert a in multiset(s);
            assert a in multiset(init);
          }
        }
      }
      InsertSorted(last, s, le);
    }
  }

  /** A transitive comparator that holds between neighbours holds between every earlier and later element. */
  lemma {:induction false} SortedPairwise<T(!new)>(s: seq<T>, le: (T, T) -> bool)
    requires SortedBy(s, le) && TransitiveOn(s, le)
    ensures forall i, j :: 0 <= i < j < |s| ==> le(s[i], s[j])
  {
    forall i, j | 0 <= i < j < |s| ensures le(s[i], s[j]) {
      var k := i + 1;
      while k < j
        invariant i < k <= j
        invariant le(s[i], s[k])
      {
        assert s[i] in s && s[k] in s && s[k + 1] in s;
        k := k + 1;
      }
    }
  }

  /** A value found at two positions is counted at least twice. */
  lemma CountedTwice<T>(ys: seq<T>, i: int, j: int)
    requires 0 <= i < j < |ys|
    ensures ys[i] == ys[j] ==> multiset(ys)[ys[i]] >= 2
  {
    assert ys == ys[..j] + ys[j..];
    assert ys[i] in ys[..j] && ys[j] in ys[j..];
    assert multiset(ys) == multiset(ys[..j]) + multiset(ys[j..]);
  }

  /** A rearrangement of a duplicate-free list is duplicate-free. */
  lemma DistinctPermutation<T(!new)>(xs: seq<T>, ys: seq<T>)
    requires Distinct(xs) && multiset(xs) == multiset(ys)
    ensures Distinct(ys)
  {
    DistinctCounts(xs);
    forall i, j | 0 <= i < j < |ys| ensures ys[i] != ys[j] {
      CountedTwice(ys, i, j);
    }
  }
}
