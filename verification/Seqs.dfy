/** Filtering, counting and stable sorting of sequences, with the facts the other modules share. */
module Seqs {

  function Filter<T>(p: T -> bool, xs: seq<T>): seq<T> {
    if xs == [] then []
    else if p(xs[0]) then [xs[0]] + Filter(p, xs[1..])
    else Filter(p, xs[1..])
  }

  lemma {:induction false} FilterMembers<T>(p: T -> bool, xs: seq<T>)
    ensures |Filter(p, xs)| <= |xs|
    ensures forall x | x in Filter(p, xs) :: x in xs && p(x)
    ensures forall x | x in xs && p(x) :: x in Filter(p, xs)
  {
    if xs != [] {
      FilterMembers(p, xs[1..]);
    }
  }

  lemma {:induction false} FilterNone<T>(p: T -> bool, xs: seq<T>)
    requires forall x | x in xs :: !p(x)
    ensures Filter(p, xs) == []
  {
    if xs != [] {
      assert xs[0] in xs && forall x | x in xs[1..] :: x in xs;
      FilterNone(p, xs[1..]);
    }
  }

  lemma {:induction false} FilterAppend<T>(p: T -> bool, xs: seq<T>, ys: seq<T>)
    ensures Filter(p, xs + ys) == Filter(p, xs) + Filter(p, ys)
  {
    if xs == [] {
      assert xs + ys == ys;
    } else {
      FilterAppend(p, xs[1..], ys);
      assert (xs + ys)[1..] == xs[1..] + ys;
    }
  }

  /** Filtering with a weaker test first changes nothing. */
  lemma {:induction false} FilterTwice<T>(p: T -> bool, q: T -> bool, xs: seq<T>)
    requires forall x | x in xs && p(x) :: q(x)
    ensures Filter(p, Filter(q, xs)) == Filter(p, xs)
  {
    if xs != [] {
      FilterTwice(p, q, xs[1..]);
      if q(xs[0]) {
        assert ([xs[0]] + Filter(q, xs[1..]))[1..] == Filter(q, xs[1..]);
      } else {
        assert xs[0] in xs;
      }
    }
  }

  lemma {:induction false} FilterSame<T>(p: T -> bool, q: T -> bool, xs: seq<T>)
    requires forall x | x in xs :: p(x) == q(x)
    ensures Filter(p, xs) == Filter(q, xs)
  {
    if xs != [] {
      FilterSame(p, q, xs[1..]);
    }
  }

  /** A test that no two positions pass keeps at most one element; one that some position passes keeps one. */
  lemma {:induction false} FilterSingle<T>(p: T -> bool, xs: seq<T>)
    requires forall i, j :: 0 <= i < j < |xs| ==> !p(xs[i]) || !p(xs[j])
    ensures |Filter(p, xs)| <= 1
    ensures (exists x :: x in xs && p(x)) ==> |Filter(p, xs)| == 1
  {
    if xs != [] {
      if p(xs[0]) {
        forall x | x in xs[1..]
          ensures !p(x)
        {
          var j :| 1 <= j < |xs| && xs[j] == x;
        }
        FilterNone(p, xs[1..]);
      } else {
        FilterSingle(p, xs[1..]);
        assert xs == [xs[0]] + xs[1..];
      }
    }
  }

  /** What passes one of two tests is counted by them together. */
  lemma {:induction false} FilterCovered<T>(p: T -> bool, q: T -> bool, r: T -> bool, xs: seq<T>)
    requires forall x | x in xs && p(x) :: q(x) || r(x)
    ensures |Filter(p, xs)| <= |Filter(q, xs)| + |Filter(r, xs)|
  {
    if xs != [] {
      assert xs[0] in xs && forall x | x in xs[1..] :: x in xs;
      FilterCovered(p, q, r, xs[1..]);
    }
  }

  /** Filtering a bag: an element keeps all of its occurrences or none. */
  lemma {:induction false} FilterBag<T>(p: T -> bool, xs: seq<T>, x: T)
    ensures multiset(Filter(p, xs))[x] == if p(x) then multiset(xs)[x] else 0
  {
    if xs != [] {
      FilterBag(p, xs[1..], x);
      assert xs == [xs[0]] + xs[1..];
    }
  }

  lemma FilterSameBag<T(!new)>(p: T -> bool, xs: seq<T>, ys: seq<T>)
    requires multiset(xs) == multiset(ys)
    ensures multiset(Filter(p, xs)) == multiset(Filter(p, ys))
  {
    forall x
      ensures multiset(Filter(p, xs))[x] == multiset(Filter(p, ys))[x]
    {
      FilterBag(p, xs, x);
      FilterBag(p, ys, x);
    }
  }

  lemma NoDuplicatesBag<T>(xs: seq<T>, x: T)
    requires NoDuplicates(xs)
    ensures multiset(xs)[x] == if x in xs then 1 else 0
  {
    if x in xs {
      var i :| 0 <= i < |xs| && xs[i] == x;
      assert xs == xs[..i] + [x] + xs[i + 1..];
      assert x !in xs[..i] && x !in xs[i + 1..];
    }
  }

  /** Where the last element of one listing stands in another, and that the rest are listings of each other. */
  lemma TakeOut<T>(xs: seq<T>, ys: seq<T>) returns (k: nat)
    requires xs != [] && NoDuplicates(xs) && multiset(xs) == multiset(ys)
    ensures var x := xs[|xs| - 1];
            && k < |ys| && ys == ys[..k] + [x] + ys[k + 1..] && x !in ys[k + 1..]
            && multiset(xs[..|xs| - 1]) == multiset(ys[..k] + ys[k + 1..])
  {
    var last := |xs| - 1;
    var x := xs[last];
    assert xs == xs[..last] + [x] && x in multiset(ys);
    k :| 0 <= k < |ys| && ys[k] == x;
    assert ys == ys[..k] + [x] + ys[k + 1..];
    NoDuplicatesBag(xs, x);
    WithoutOne(xs[..last], ys[..k], x, ys[k + 1..]);
  }

  lemma WithoutOne<T>(rest: seq<T>, p: seq<T>, x: T, q: seq<T>)
    requires multiset(rest + [x]) == multiset(p + [x] + q) && multiset(rest + [x])[x] == 1
    ensures multiset(rest) == multiset(p + q) && x !in q
  {
    assert multiset(p + [x] + q) == multiset(p + q) + multiset{x};
    assert multiset(rest) == multiset(rest + [x]) - multiset{x};
    assert multiset(p + q) == multiset(p + [x] + q) - multiset{x};
    assert multiset(p + q)[x] == multiset(p)[x] + multiset(q)[x];
  }

  function Map<T, U>(f: T -> U, xs: seq<T>): (r: seq<U>)
    ensures |r| == |xs| && forall i :: 0 <= i < |xs| ==> r[i] == f(xs[i])
  {
    seq(|xs|, i requires 0 <= i < |xs| => f(xs[i]))
  }

  ghost predicate NoDuplicates<T>(xs: seq<T>) {
    forall i, j :: 0 <= i < j < |xs| ==> xs[i] != xs[j]
  }

  lemma {:induction false} FilterNoDuplicates<T>(p: T -> bool, xs: seq<T>)
    requires NoDuplicates(xs)
    ensures NoDuplicates(Filter(p, xs))
  {
    if xs != [] {
      FilterNoDuplicates(p, xs[1..]);
      FilterMembers(p, xs[1..]);
      assert xs[0] !in xs[1..];
    }
  }

  /** ys keeps the order of xs and may leave elements out. */
  ghost predicate Subsequence<T>(ys: seq<T>, xs: seq<T>) {
    if ys == [] then true
    else xs != [] && ((ys[0] == xs[0] && Subsequence(ys[1..], xs[1..])) || Subsequence(ys, xs[1..]))
  }

  lemma {:induction false} FilterIsSubsequence<T>(p: T -> bool, xs: seq<T>)
    ensures Subsequence(Filter(p, xs), xs)
  {
    if xs != [] {
      FilterIsSubsequence(p, xs[1..]);
      if p(xs[0]) {
        assert Filter(p, xs)[1..] == Filter(p, xs[1..]);
      }
    }
  }

  lemma {:induction false} MapSubsequence<T, U>(f: T -> U, ys: seq<T>, xs: seq<T>)
    requires Subsequence(ys, xs)
    ensures Subsequence(Map(f, ys), Map(f, xs))
    decreases |xs|
  {
    if ys != [] {
      assert Map(f, xs)[1..] == Map(f, xs[1..]);
      assert Map(f, ys)[1..] == Map(f, ys[1..]);
      if ys[0] == xs[0] && Subsequence(ys[1..], xs[1..]) {
        MapSubsequence(f, ys[1..], xs[1..]);
      } else {
        MapSubsequence(f, ys, xs[1..]);
      }
    }
  }

  /* Sorting. The order is given by a strict comparison; elements that neither precede
     the other keep their relative positions. */

  function Insert<T>(less: (T, T) -> bool, x: T, ys: seq<T>): seq<T> {
    if ys == [] then [x]
    else if less(ys[0], x) then [ys[0]] + Insert(less, x, ys[1..])
    else [x] + ys
  }

  function Sort<T>(less: (T, T) -> bool, xs: seq<T>): seq<T> {
    if xs == [] then [] else Insert(less, xs[0], Sort(less, xs[1..]))
  }

  lemma {:induction false} InsertBag<T>(less: (T, T) -> bool, x: T, ys: seq<T>)
    ensures multiset(Insert(less, x, ys)) == multiset(ys) + multiset{x}
  {
    if ys != [] {
      assert ys == [ys[0]] + ys[1..];
      InsertBag(less, x, ys[1..]);
    }
  }

  lemma SameBagSameLength<T>(a: seq<T>, b: seq<T>)
    requires multiset(a) == multiset(b)
    ensures |a| == |b|
  {
    assert |a| == |multiset(a)| && |b| == |multiset(b)|;
  }

  lemma {:induction false} SortBag<T>(less: (T, T) -> bool, xs: seq<T>)
    ensures multiset(Sort(less, xs)) == multiset(xs)
  {
    if xs != [] {
      assert xs == [xs[0]] + xs[1..];
      SortBag(less, xs[1..]);
      InsertBag(less, xs[0], Sort(less, xs[1..]));
    }
  }

  /** Anything between a and c is on one side of b. Named so that proofs say where they use it. */
  predicate Splits<T>(less: (T, T) -> bool, a: T, b: T, c: T) {
    less(a, c) ==> less(a, b) || less(b, c)
  }

  ghost predicate WeakOrder<T(!new)>(less: (T, T) -> bool) {
    && (forall a, b :: less(a, b) ==> !less(b, a))
    && (forall a, b, c :: Splits(less, a, b, c))
  }

  ghost predicate Sorted<T>(less: (T, T) -> bool, xs: seq<T>) {
    forall i, j :: 0 <= i < j < |xs| ==> !less(xs[j], xs[i])
  }

  ghost predicate StrictlySorted<T>(less: (T, T) -> bool, xs: seq<T>) {
    forall i, j :: 0 <= i < j < |xs| ==> less(xs[i], xs[j])
  }

  /** Every two occurrences in the bag are ordered one way or the other. */
  ghost predicate Separated<T>(less: (T, T) -> bool, m: multiset<T>) {
    && (forall a | a in m :: m[a] == 1)
    && (forall a, b | a in m && b in m && a != b :: less(a, b) || less(b, a))
  }

  lemma {:induction false} InsertSorted<T(!new)>(less: (T, T) -> bool, x: T, ys: seq<T>)
    requires WeakOrder(less) && Sorted(less, ys)
    ensures Sorted(less, Insert(less, x, ys))
  {
    if ys != [] && less(ys[0], x) {
      var rest := Insert(less, x, ys[1..]);
      InsertSorted(less, x, ys[1..]);
      InsertBag(less, x, ys[1..]);
      forall j | 0 <= j < |rest|
        ensures !less(rest[j], ys[0])
      {
        assert rest[j] in multiset(rest);
        if rest[j] != x {
          assert rest[j] in multiset(ys[1..]);
          var k :| 1 <= k < |ys| && ys[k] == rest[j];
        }
      }
    } else if ys != [] {
      forall j | 0 <= j < |ys|
        ensures !less(ys[j], x)
      {
        assert j > 0 ==> !less(ys[j], ys[0]);
        assert Splits(less, ys[j], ys[0], x);
      }
    }
  }

  lemma {:induction false} SortSorted<T(!new)>(less: (T, T) -> bool, xs: seq<T>)
    requires WeakOrder(less)
    ensures Sorted(less, Sort(less, xs))
  {
    if xs != [] {
      SortSorted(less, xs[1..]);
      InsertSorted(less, xs[0], Sort(less, xs[1..]));
    }
  }

  lemma DistinctPositions<T>(xs: seq<T>, i: nat, j: nat)
    requires i < j < |xs| && multiset(xs)[xs[i]] == 1
    ensures xs[i] != xs[j]
  {
    assert xs == xs[..i] + [xs[i]] + xs[i + 1..j] + [xs[j]] + xs[j + 1..];
    assert multiset(xs) == multiset(xs[..i]) + multiset{xs[i]} + multiset(xs[i + 1..j])
                           + multiset{xs[j]} + multiset(xs[j + 1..]);
  }

  lemma SortedSeparatedIsStrict<T>(less: (T, T) -> bool, xs: seq<T>)
    requires Sorted(less, xs) && Separated(less, multiset(xs))
    ensures StrictlySorted(less, xs)
  {
    forall i, j | 0 <= i < j < |xs|
      ensures less(xs[i], xs[j])
    {
      DistinctPositions(xs, i, j);
      assert xs[i] in multiset(xs) && xs[j] in multiset(xs);
    }
  }

  /** A bag has at most one strictly sorted listing. */
  lemma {:induction false} StrictlySortedUnique<T(!new)>(less: (T, T) -> bool, xs: seq<T>, ys: seq<T>)
    requires WeakOrder(less)
    requires StrictlySorted(less, xs) && StrictlySorted(less, ys)
    requires multiset(xs) == multiset(ys)
    ensures xs == ys
  {
    assert |xs| == |multiset(xs)| == |multiset(ys)| == |ys|;
    if xs != [] {
      SameFirst(less, xs, ys);
      assert xs == [xs[0]] + xs[1..] && ys == [ys[0]] + ys[1..];
      assert multiset(xs[1..]) == multiset(xs) - multiset{xs[0]};
      assert multiset(ys[1..]) == multiset(ys) - multiset{ys[0]};
      StrictlySortedUnique(less, xs[1..], ys[1..]);
    }
  }

  lemma SameFirst<T(!new)>(less: (T, T) -> bool, xs: seq<T>, ys: seq<T>)
    requires WeakOrder(less)
    requires StrictlySorted(less, xs) && StrictlySorted(less, ys)
    requires multiset(xs) == multiset(ys) && xs != [] && ys != []
    ensures xs[0] == ys[0]
  {
    assert xs[0] in multiset(ys) && ys[0] in multiset(xs);
    var k :| 0 <= k < |ys| && ys[k] == xs[0];
    var j :| 0 <= j < |xs| && xs[j] == ys[0];
  }

  /** Sorting forgets the input order as soon as the comparison tells all elements apart. */
  lemma SortCanonical<T(!new)>(less: (T, T) -> bool, xs: seq<T>, ys: seq<T>)
    requires WeakOrder(less) && Separated(less, multiset(xs))
    requires multiset(xs) == multiset(ys)
    ensures Sort(less, xs) == Sort(less, ys) && StrictlySorted(less, Sort(less, xs))
  {
    SortSorted(less, xs);
    SortSorted(less, ys);
    SortBag(less, xs);
    SortBag(less, ys);
    SortedSeparatedIsStrict(less, Sort(less, xs));
    SortedSeparatedIsStrict(less, Sort(less, ys));
    StrictlySortedUnique(less, Sort(less, xs), Sort(less, ys));
  }

  lemma {:induction false} InsertFilter<T(!new)>(less: (T, T) -> bool, p: T -> bool, x: T, ys: seq<T>)
    requires WeakOrder(less) && Sorted(less, ys)
    ensures Filter(p, Insert(less, x, ys))
         == if p(x) then Insert(less, x, Filter(p, ys)) else Filter(p, ys)
  {
    if ys != [] && less(ys[0], x) {
      InsertFilter(less, p, x, ys[1..]);
      assert Insert(less, x, ys)[1..] == Insert(less, x, ys[1..]);
      if p(ys[0]) {
        assert Filter(p, ys)[1..] == Filter(p, ys[1..]);
      }
    } else {
      assert ([x] + ys)[1..] == ys;
      var kept := Filter(p, ys);
      if ys != [] && kept != [] {
        FilterMembers(p, ys);
        assert kept[0] in kept;
        var k :| 0 <= k < |ys| && ys[k] == kept[0];
        assert k > 0 ==> !less(ys[k], ys[0]);
        assert Splits(less, kept[0], ys[0], x);
      }
    }
  }

  /** Leaving elements out before or after sorting is the same. */
  lemma {:induction false} SortFilter<T(!new)>(less: (T, T) -> bool, p: T -> bool, xs: seq<T>)
    requires WeakOrder(less)
    ensures Sort(less, Filter(p, xs)) == Filter(p, Sort(less, xs))
  {
    if xs != [] {
      SortFilter(less, p, xs[1..]);
      SortSorted(less, xs[1..]);
      InsertFilter(less, p, xs[0], Sort(less, xs[1..]));
      if p(xs[0]) {
        assert Filter(p, xs)[0] == xs[0] && Filter(p, xs)[1..] == Filter(p, xs[1..]);
      }
    }
  }

  /** A new maximum is sorted to the end. */
  lemma {:induction false} SortAppendMaximum<T(!new)>(less: (T, T) -> bool, xs: seq<T>, x: T)
    requires WeakOrder(less) && forall y | y in xs :: less(y, x)
    ensures Sort(less, xs + [x]) == Sort(less, xs) + [x]
  {
    if xs != [] {
      SortAppendMaximum(less, xs[1..], x);
      assert (xs + [x])[1..] == xs[1..] + [x];
      InsertBeforeLast(less, xs[0], Sort(less, xs[1..]), x);
    }
  }

  lemma {:induction false} InsertBeforeLast<T>(less: (T, T) -> bool, y: T, ys: seq<T>, x: T)
    requires !less(x, y)
    ensures Insert(less, y, ys + [x]) == Insert(less, y, ys) + [x]
  {
    if ys != [] {
      InsertBeforeLast(less, y, ys[1..], x);
      assert (ys + [x])[1..] == ys[1..] + [x];
    } else {
      assert ys + [x] == [x];
    }
  }

  /* Text is compared by code point, as Python compares it. */

  predicate TextLess(a: string, b: string) {
    b != [] && (a == [] || a[0] < b[0] || (a[0] == b[0] && TextLess(a[1..], b[1..])))
  }

  /** After what two texts have in common, the one that ends or has the smaller letter is the lesser. */
  lemma {:induction false} TextLessExactly(p: string, a: string, b: string)
    requires a == [] || b == [] || a[0] != b[0]
    ensures TextLess(p + a, p + b) <==> b != [] && (a == [] || a[0] < b[0])
  {
    if p == [] {
      assert p + a == a && p + b == b;
    } else {
      assert (p + a)[1..] == p[1..] + a && (p + b)[1..] == p[1..] + b;
      TextLessExactly(p[1..], a, b);
    }
  }

  lemma {:induction false} TextLessAsymmetric(a: string, b: string)
    requires TextLess(a, b)
    ensures !TextLess(b, a)
  {
    if a != [] && a[0] == b[0] {
      TextLessAsymmetric(a[1..], b[1..]);
    }
  }

  lemma {:induction false} TextLessSplits(a: string, b: string, c: string)
    requires TextLess(a, c)
    ensures TextLess(a, b) || TextLess(b, c)
  {
    if a != [] && b != [] && a[0] == b[0] == c[0] {
      TextLessSplits(a[1..], b[1..], c[1..]);
    }
  }

  lemma {:induction false} TextLessTotal(a: string, b: string)
    requires a != b
    ensures TextLess(a, b) || TextLess(b, a)
  {
    if a != [] && b != [] && a[0] == b[0] {
      assert a == [a[0]] + a[1..] && b == [b[0]] + b[1..];
      TextLessTotal(a[1..], b[1..]);
    }
  }

  lemma TextLessOrders()
    ensures forall a, b | TextLess(a, b) :: !TextLess(b, a)
    ensures forall a, b, c :: Splits(TextLess, a, b, c)
    ensures forall a, b | a != b :: TextLess(a, b) || TextLess(b, a)
  {
    forall a, b | TextLess(a, b)
      ensures !TextLess(b, a)
    {
      TextLessAsymmetric(a, b);
    }
    forall a, b, c
      ensures Splits(TextLess, a, b, c)
    {
      if TextLess(a, c) {
        TextLessSplits(a, b, c);
      }
    }
    forall a, b | a != b
      ensures TextLess(a, b) || TextLess(b, a)
    {
      TextLessTotal(a, b);
    }
  }
}
