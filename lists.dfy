/**
 * Array idioms the program uses over and over: `filter`, a `Set` kept in
 * insertion order, the "toggle" of a selection list, and a stable sort
 * with a caller-supplied comparator.
 */
module Lists {

  predicate Distinct<T(==,!new)>(xs: seq<T>) {
    forall i, j :: 0 <= i < j < |xs| ==> xs[i] != xs[j]
  }

  /** The callback `y => y !== x`. */
  function NotEqual<T(==)>(x: T): T -> bool {
    y => y != x
  }

  /** The callback `y => !ys.includes(y)`. */
  function NotIn<T(==)>(ys: seq<T>): T -> bool {
    y => y !in ys
  }

  /** The callback `y => ys.includes(y)`. */
  function In<T(==)>(ys: seq<T>): T -> bool {
    y => y in ys
  }

  /** `xs.filter(p)`. */
  function Filter<T(!new)>(xs: seq<T>, p: T -> bool): (r: seq<T>)
    ensures |r| <= |xs|
    ensures forall x :: x in r <==> x in xs && p(x)
  {
    if xs == [] then []
    else
      assert xs == [xs[0]] + xs[1..];
      (if p(xs[0]) then [xs[0]] else []) + Filter(xs[1..], p)
  }

  /** What `filter(p)` keeps and what `filter(q)` keeps, for `q` the negation of `p`, make up the whole array. */
  lemma {:induction false} FilterSplits<T(!new)>(xs: seq<T>, p: T -> bool, q: T -> bool)
    requires forall x :: q(x) == !p(x)
    ensures multiset(Filter(xs, p)) + multiset(Filter(xs, q)) == multiset(xs)
  {
    if xs != [] {
      var h, t := xs[0], xs[1..];
      var mp, mq := multiset(Filter(t, p)), multiset(Filter(t, q));
      assert mp + mq == multiset(t) by {
        FilterSplits(t, p, q);
      }
      assert multiset(xs) == multiset{h} + multiset(t) by {
        assert xs == [h] + t;
      }
      assert multiset(Filter(xs, p)) + multiset(Filter(xs, q)) == multiset{h} + (mp + mq) by {
        if p(h) {
          assert Filter(xs, p) == [h] + Filter(t, p) && Filter(xs, q) == Filter(t, q);
        } else {
          assert Filter(xs, p) == Filter(t, p) && Filter(xs, q) == [h] + Filter(t, q);
        }
      }
    }
  }

  lemma {:induction false} FilterConcat<T(!new)>(xs: seq<T>, ys: seq<T>, p: T -> bool)
    ensures Filter(xs + ys, p) == Filter(xs, p) + Filter(ys, p)
  {
    if xs == [] {
      assert xs + ys == ys;
    } else {
      var zs := xs + ys;
      assert zs[0] == xs[0] && zs[1..] == xs[1..] + ys;
      FilterConcat(xs[1..], ys, p);
      calc {
        Filter(zs, p);
        (if p(zs[0]) then [zs[0]] else []) + Filter(zs[1..], p);
        (if p(xs[0]) then [xs[0]] else []) + (Filter(xs[1..], p) + Filter(ys, p));
        Filter(xs, p) + Filter(ys, p);
      }
    }
  }

  lemma {:induction false} FilterDistinct<T(!new)>(xs: seq<T>, p: T -> bool)
    requires Distinct(xs)
    ensures Distinct(Filter(xs, p))
  {
    if xs != [] {
      FilterDistinct(xs[1..], p);
      assert xs[0] !in xs[1..];
    }
  }

  /** `xs.filter(x => !ys.includes(x))`. */
  function Without<T(==,!new)>(xs: seq<T>, ys: seq<T>): (r: seq<T>)
    ensures forall x :: x in r <==> x in xs && x !in ys
  {
    Filter(xs, NotIn(ys))
  }

  /** Removing the members of a duplicate-free `ys` that `xs` holds once each takes out exactly them. */
  lemma WithoutRemovesOnce<T(!new)>(xs: seq<T>, ys: seq<T>)
    requires Distinct(xs) && Distinct(ys)
    requires forall y :: y in ys ==> y in xs
    ensures multiset(Without(xs, ys)) + multiset(ys) == multiset(xs)
    ensures |Without(xs, ys)| == |xs| - |ys|
  {
    FilterSplits(xs, NotIn(ys), In(ys));
    var taken := Filter(xs, In(ys));
    FilterDistinct(xs, In(ys));
    DistinctSameElements(taken, ys);
    assert |multiset(Without(xs, ys))| + |multiset(ys)| == |multiset(xs)|;
  }

  /** In a duplicate-free sequence every member occurs exactly once. */
  lemma {:induction false} DistinctCounts<T(!new)>(xs: seq<T>)
    requires Distinct(xs)
    ensures forall v :: multiset(xs)[v] == if v in xs then 1 else 0
  {
    if xs != [] {
      assert xs == [xs[0]] + xs[1..];
      assert Distinct(xs[1..]) by {
        forall i, j | 0 <= i < j < |xs| - 1 ensures xs[1..][i] != xs[1..][j] {
          assert xs[1..][i] == xs[i + 1] && xs[1..][j] == xs[j + 1];
        }
      }
      DistinctCounts(xs[1..]);
    }
  }

  /** Two duplicate-free sequences with the same members are permutations of each other. */
  lemma DistinctSameElements<T(!new)>(xs: seq<T>, ys: seq<T>)
    requires Distinct(xs) && Distinct(ys)
    requires forall x :: x in xs <==> x in ys
    ensures multiset(xs) == multiset(ys)
  {
    DistinctCounts(xs);
    DistinctCounts(ys);
    assert forall v :: multiset(xs)[v] == multiset(ys)[v];
  }

  /** `Set.prototype.add` on a set that remembers insertion order. */
  function AddUnique<T(==,!new)>(xs: seq<T>, x: T): (r: seq<T>)
    ensures x in r && (forall y :: y in r <==> y in xs || y == x)
    ensures Distinct(xs) ==> Distinct(r)
    ensures x in xs ==> r == xs
  {
    if x in xs then xs else xs + [x]
  }

  /** Adds every element of `xs`, in order, to the insertion-ordered set `acc`. */
  function AddAll<T(==,!new)>(acc: seq<T>, xs: seq<T>): (r: seq<T>)
    ensures forall y :: y in r <==> y in acc || y in xs
    ensures Distinct(acc) ==> Distinct(r)
    decreases |xs|
  {
    if xs == [] then acc else AddAll(AddUnique(acc, xs[0]), xs[1..])
  }

  lemma {:induction false} AddAllConcat<T(!new)>(acc: seq<T>, xs: seq<T>, ys: seq<T>)
    ensures AddAll(acc, xs + ys) == AddAll(AddAll(acc, xs), ys)
    decreases |xs|
  {
    if xs == [] {
      assert xs + ys == ys;
    } else {
      assert (xs + ys)[1..] == xs[1..] + ys;
      AddAllConcat(AddUnique(acc, xs[0]), xs[1..], ys);
    }
  }

  /** `Array.from(new Set(xs))`: first occurrences, in order. */
  function Dedupe<T(==,!new)>(xs: seq<T>): (r: seq<T>)
    ensures Distinct(r)
    ensures forall y :: y in r <==> y in xs
  {
    AddAll([], xs)
  }

  /**
   * The click handler of a selection list: a member is filtered out, a
   * non-member is appended at the end.
   */
  function Toggle<T(==,!new)>(sel: seq<T>, x: T): (r: seq<T>)
    ensures x in sel ==> x !in r && forall y :: y != x ==> (y in r <==> y in sel)
    ensures x !in sel ==> r == sel + [x]
    ensures Distinct(sel) ==> Distinct(r)
  {
    if x in sel then
      FilterDistinctIfDistinct(sel, NotEqual(x));
      Filter(sel, NotEqual(x))
    else
      sel + [x]
  }

  lemma FilterDistinctIfDistinct<T(!new)>(xs: seq<T>, p: T -> bool)
    ensures Distinct(xs) ==> Distinct(Filter(xs, p))
  {
    if Distinct(xs) { FilterDistinct(xs, p); }
  }

  /** A filter that keeps every element changes nothing. */
  lemma {:induction false} FilterKeepsAll<T(!new)>(xs: seq<T>, p: T -> bool)
    requires forall x :: x in xs ==> p(x)
    ensures Filter(xs, p) == xs
  {
    if xs != [] {
      FilterKeepsAll(xs[1..], p);
    }
  }

  /** In a duplicate-free list an element occurs neither before nor after its own position. */
  lemma DistinctAt<T(!new)>(sel: seq<T>, k: int)
    requires Distinct(sel) && 0 <= k < |sel|
    ensures sel[k] !in sel[..k] && sel[k] !in sel[k + 1..]
  {
  }

  /** Filtering out an element that occurs once removes just that position. */
  lemma {:induction false} RemoveUniqueAt<T(!new)>(sel: seq<T>, k: int)
    requires 0 <= k < |sel|
    requires sel[k] !in sel[..k] && sel[k] !in sel[k + 1..]
    ensures Filter(sel, NotEqual(sel[k])) == sel[..k] + sel[k + 1..]
  {
    var p := NotEqual(sel[k]);
    if k == 0 {
      FilterKeepsAll(sel[1..], p);
    } else {
      var rest := sel[1..];
      assert rest[k - 1] == sel[k];
      assert rest[..k - 1] == sel[1..k] && rest[k..] == sel[k + 1..];
      assert sel[k] !in rest[..k - 1] by {
        assert sel[1..k] == sel[..k][1..];
      }
      RemoveUniqueAt(rest, k - 1);
      assert sel[..k] == [sel[0]] + rest[..k - 1];
    }
  }

  /**
   * Toggling the same element twice gives the same members back. An element
   * that was absent is added and removed again, so the list is unchanged; one
   * that was present is removed and re-appended, so it moves to the end.
   */
  lemma ToggleTwice<T(!new)>(sel: seq<T>, x: T)
    requires Distinct(sel)
    ensures forall y :: y in Toggle(Toggle(sel, x), x) <==> y in sel
    ensures x !in sel ==> Toggle(Toggle(sel, x), x) == sel
    ensures x in sel ==> Toggle(Toggle(sel, x), x) == Filter(sel, NotEqual(x)) + [x]
  {
    var p := NotEqual(x);
    if x !in sel {
      var once := sel + [x];
      assert Toggle(sel, x) == once;
      assert x in once;
      assert Toggle(once, x) == Filter(once, p);
      FilterConcat(sel, [x], p);
      FilterKeepsAll(sel, p);
      assert Filter([x], p) == [];
    } else {
      var once := Filter(sel, p);
      assert Toggle(sel, x) == once;
      assert x !in once;
    }
  }
}
