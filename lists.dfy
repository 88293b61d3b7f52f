/**
 * The array operations every page uses: `filter`, the toggle-membership idiom
 * `xs.includes(x) ? xs.filter(y => y !== x) : [...xs, x]`, and the order-preserving
 * subsequence relation that a filtered list keeps with the list it came from.
 */
module Lists {

  /** `xs.filter(keep)`: the elements that pass `keep`, each as often as in `xs`, in their original order. */
  function Filter<T>(xs: seq<T>, keep: T -> bool): (r: seq<T>)
    ensures |r| <= |xs|
  {
    if xs == [] then [] else (if keep(xs[0]) then [xs[0]] else []) + Filter(xs[1..], keep)
  }

  /** Filtering keeps every copy of a value that passes and none of a value that fails. */
  lemma {:induction false} FilterKeepsCopies<T>(xs: seq<T>, keep: T -> bool, y: T)
    ensures multiset(Filter(xs, keep))[y] == if keep(y) then multiset(xs)[y] else 0
  {
    if xs != [] {
      FilterKeepsCopies(xs[1..], keep, y);
      var head := if keep(xs[0]) then [xs[0]] else [];
      assert xs == [xs[0]] + xs[1..];
      assert multiset(Filter(xs, keep)) == multiset(head) + multiset(Filter(xs[1..], keep));
    }
  }

  /** An element is in the filtered list exactly when it is in the list and passes the filter. */
  lemma {:induction false} FilterMembership<T>(xs: seq<T>, keep: T -> bool, x: T)
    ensures x in Filter(xs, keep) <==> x in xs && keep(x)
  {
    if xs != [] {
      FilterMembership(xs[1..], keep, x);
      assert xs == [xs[0]] + xs[1..];
    }
  }

  /** Filtering with a test every element passes changes nothing. */
  lemma {:induction false} FilterAll<T>(xs: seq<T>, keep: T -> bool)
    requires forall k :: 0 <= k < |xs| ==> keep(xs[k])
    ensures Filter(xs, keep) == xs
  {
    if xs != [] {
      FilterAll(xs[1..], keep);
    }
  }

  /** Two tests that agree on every element of the list filter it alike. */
  lemma {:induction false} FilterSameTest<T>(xs: seq<T>, p: T -> bool, q: T -> bool)
    requires forall k :: 0 <= k < |xs| ==> p(xs[k]) == q(xs[k])
    ensures Filter(xs, p) == Filter(xs, q)
  {
    if xs != [] {
      FilterSameTest(xs[1..], p, q);
    }
  }

  /**
   * `sub` is an order-preserving subsequence of `xs`: `xs` with some elements dropped and the
   * rest kept in order.
   */
  predicate IsSubsequence<T(==)>(sub: seq<T>, xs: seq<T>)
    decreases |xs|
  {
    if sub == [] then true
    else if xs == [] then false
    else (sub[0] == xs[0] && IsSubsequence(sub[1..], xs[1..])) || IsSubsequence(sub, xs[1..])
  }

  /** Every list is a subsequence of itself. */
  lemma {:induction false} SubsequenceOfItself<T>(xs: seq<T>)
    ensures IsSubsequence(xs, xs)
  {
    if xs != [] {
      SubsequenceOfItself(xs[1..]);
    }
  }

  /** A filtered list is an order-preserving subsequence of the list it came from. */
  lemma {:induction false} FilterIsSubsequence<T>(xs: seq<T>, keep: T -> bool)
    ensures IsSubsequence(Filter(xs, keep), xs)
  {
    if xs != [] {
      FilterIsSubsequence(xs[1..], keep);
      var rest := Filter(xs[1..], keep);
      if keep(xs[0]) {
        assert Filter(xs, keep) == [xs[0]] + rest;
        assert ([xs[0]] + rest)[1..] == rest;
      } else {
        assert Filter(xs, keep) == rest;
      }
    }
  }

  /** `xs` has no element twice. */
  predicate NoDuplicates<T(==)>(xs: seq<T>) {
    forall i, j :: 0 <= i < j < |xs| ==> xs[i] != xs[j]
  }

  /** `xs.filter(y => y !== x)`: every occurrence of `x` removed, the rest in order. */
  function RemoveAll<T(==,!new)>(xs: seq<T>, x: T): (r: seq<T>)
    ensures forall y :: y in r ==> y in xs && y != x
    ensures forall y :: y in xs && y != x ==> y in r
    ensures IsSubsequence(r, xs)
    ensures multiset(r) == multiset(xs)[x := 0]
  {
    var keep := y => y != x;
    var r := Filter(xs, keep);
    forall y | y in r ensures y in xs && y != x {
      FilterMembership(xs, keep, y);
    }
    forall y | y in xs && y != x ensures y in r {
      FilterMembership(xs, keep, y);
    }
    FilterIsSubsequence(xs, keep);
    forall y ensures multiset(r)[y] == multiset(xs)[x := 0][y] {
      FilterKeepsCopies(xs, keep, y);
    }
    r
  }

  /** Removing from a duplicate-free list keeps it duplicate-free. */
  lemma {:induction false} RemoveAllNoDuplicates<T(!new)>(xs: seq<T>, x: T)
    requires NoDuplicates(xs)
    ensures NoDuplicates(RemoveAll(xs, x))
  {
    if xs != [] {
      RemoveAllNoDuplicates(xs[1..], x);
      var rest := RemoveAll(xs[1..], x);
      assert RemoveAll(xs, x) == (if xs[0] != x then [xs[0]] else []) + rest;
      assert xs[0] !in xs[1..];
      assert xs[0] !in rest;
    }
  }

  /** Removing a value that is absent changes nothing. */
  lemma RemoveAbsent<T(!new)>(xs: seq<T>, x: T)
    requires x !in xs
    ensures RemoveAll(xs, x) == xs
  {
    FilterAll(xs, y => y != x);
  }

  /**
   * The selection idiom `xs.includes(x) ? xs.filter(y => y !== x) : [...xs, x]`:
   * a present value is removed (every occurrence), an absent one is appended at the end.
   */
  function Toggle<T(==,!new)>(xs: seq<T>, x: T): (r: seq<T>)
    ensures x in r <==> x !in xs
    ensures forall y :: y in r && y != x ==> y in xs
    ensures forall y :: y in xs && y != x ==> y in r
    ensures x !in xs ==> r == xs + [x]
    ensures x in xs ==> IsSubsequence(r, xs) && multiset(r) == multiset(xs)[x := 0]
  {
    if x in xs then RemoveAll(xs, x) else xs + [x]
  }

  /** Toggling the same value twice restores which values are selected. */
  lemma ToggleTwiceSameMembers<T(!new)>(xs: seq<T>, x: T)
    ensures forall y :: y in Toggle(Toggle(xs, x), x) ==> y in xs
    ensures forall y :: y in xs ==> y in Toggle(Toggle(xs, x), x)
  {
  }

  /** Appending a value that was absent and then removing it gives back the very same list. */
  lemma RemoveAllAppended<T(!new)>(xs: seq<T>, x: T)
    requires x !in xs
    ensures RemoveAll(xs + [x], x) == xs
  {
    assert RemoveAll(xs + [x], x) == RemoveAll(xs, x) + RemoveAll([x], x) by {
      FilterAppend(xs, [x], y => y != x);
    }
    RemoveAbsent(xs, x);
    assert RemoveAll([x], x) == [];
  }

  /** Toggling in a value that was absent and toggling it out again gives back the very same list. */
  lemma ToggleTwiceAbsent<T(!new)>(xs: seq<T>, x: T)
    requires x !in xs
    ensures Toggle(Toggle(xs, x), x) == xs
  {
    assert Toggle(xs, x) == xs + [x];
    RemoveAllAppended(xs, x);
  }

  lemma {:induction false} FilterAppend<T>(a: seq<T>, b: seq<T>, keep: T -> bool)
    ensures Filter(a + b, keep) == Filter(a, keep) + Filter(b, keep)
  {
    if a != [] {
      FilterAppend(a[1..], b, keep);
      assert (a + b)[1..] == a[1..] + b;
    } else {
      assert a + b == b;
    }
  }

  /** A selection built by toggles never holds an id twice. */
  lemma ToggleNoDuplicates<T(!new)>(xs: seq<T>, x: T)
    requires NoDuplicates(xs)
    ensures NoDuplicates(Toggle(xs, x))
  {
    if x in xs {
      RemoveAllNoDuplicates(xs, x);
    }
  }
}
