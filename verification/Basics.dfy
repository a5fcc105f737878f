/** The failure-carrying datatypes used instead of exceptions and null. */
module Wrappers {
  datatype Option<+T> = None | Some(value: T) {
    function GetOr(default: T): T {
      if Some? then value else default
    }
    function OrElse(other: Option<T>): Option<T> {
      if Some? then this else other
    }
  }

  datatype Result<+T, +E> = Success(value: T) | Failure(error: E)
}

/** Filters, counts, sums and first occurrences over sequences,
    defined from the right so that loops that append follow them. */
module Sequences {
  import opened Wrappers

  function Filter<T(!new)>(p: T -> bool, xs: seq<T>): seq<T> {
    if xs == [] then []
    else
      var n := |xs| - 1;
      if p(xs[n]) then Filter(p, xs[..n]) + [xs[n]] else Filter(p, xs[..n])
  }

  lemma {:induction false} FilterContents<T(!new)>(p: T -> bool, xs: seq<T>)
    ensures forall x :: x in Filter(p, xs) <==> x in xs && p(x)
  {
    if xs != [] {
      var n := |xs| - 1;
      assert xs == xs[..n] + [xs[n]];
      FilterContents(p, xs[..n]);
    }
  }

  function Count<T(!new)>(p: T -> bool, xs: seq<T>): nat {
    if xs == [] then 0
    else Count(p, xs[..|xs| - 1]) + if p(xs[|xs| - 1]) then 1 else 0
  }

  function Sum<T(!new)>(f: T -> int, xs: seq<T>): int {
    if xs == [] then 0 else Sum(f, xs[..|xs| - 1]) + f(xs[|xs| - 1])
  }

  function MapSeq<S(!new), T(!new)>(f: S -> T, xs: seq<S>): (r: seq<T>)
    ensures |r| == |xs| && forall i :: 0 <= i < |xs| ==> r[i] == f(xs[i])
  {
    seq(|xs|, i requires 0 <= i < |xs| => f(xs[i]))
  }

  ghost predicate Distinct<T(!new)>(xs: seq<T>) {
    forall i, j :: 0 <= i < j < |xs| ==> xs[i] != xs[j]
  }

  /** The elements of `xs` in order of first occurrence, each once. */
  function Dedup<T(==,!new)>(xs: seq<T>): seq<T> {
    if xs == [] then []
    else
      var n := |xs| - 1;
      var front := Dedup(xs[..n]);
      if xs[n] in front then front else front + [xs[n]]
  }

  lemma {:induction false} DedupContents<T(!new)>(xs: seq<T>)
    ensures Distinct(Dedup(xs))
    ensures forall x :: x in Dedup(xs) <==> x in xs
  {
    if xs != [] {
      var n := |xs| - 1;
      assert xs == xs[..n] + [xs[n]];
      DedupContents(xs[..n]);
    }
  }

  lemma {:induction false} DedupStep<T(!new)>(xs: seq<T>, x: T)
    ensures Dedup(xs + [x]) == if x in Dedup(xs) then Dedup(xs) else Dedup(xs) + [x]
  {
    assert (xs + [x])[..|xs|] == xs;
  }

  /** Of two elements the one listed first is the one that occurs first. */
  lemma {:induction false} DedupKeepsOrder<T(!new)>(xs: seq<T>, i: nat, j: nat) returns (u: nat)
    requires i < j < |Dedup(xs)|
    ensures u < |xs| && xs[u] == Dedup(xs)[i] && forall v :: 0 <= v <= u ==> xs[v] != Dedup(xs)[j]
  {
    var n := |xs| - 1;
    var front := Dedup(xs[..n]);
    DedupContents(xs[..n]);
    if j < |front| {
      u := DedupKeepsOrder(xs[..n], i, j);
      assert forall v :: 0 <= v <= u ==> xs[v] == xs[..n][v];
    } else {
      assert front[i] in xs[..n];
      u :| 0 <= u < n && xs[u] == front[i];
      assert forall v :: 0 <= v <= u ==> xs[v] in xs[..n];
    }
  }

  lemma {:induction false} PrefixStep<T(!new)>(xs: seq<T>, i: nat)
    requires i < |xs|
    ensures xs[..i + 1][..i] == xs[..i] && xs[..i + 1][i] == xs[i] && xs[..i + 1] == xs[..i] + [xs[i]]
  {
  }

  lemma {:induction false} DedupDistinct<T(!new)>(xs: seq<T>)
    requires Distinct(xs)
    ensures Dedup(xs) == xs
  {
    if xs != [] {
      var n := |xs| - 1;
      DedupDistinct(xs[..n]);
      assert xs[..n] + [xs[n]] == xs;
      assert xs[n] !in xs[..n];
    }
  }

  lemma {:induction false} DedupPrefix<T(!new)>(xs: seq<T>, ys: seq<T>)
    ensures Dedup(xs) <= Dedup(xs + ys)
  {
    if ys == [] {
      assert xs + ys == xs;
    } else {
      var n := |ys| - 1;
      DedupPrefix(xs, ys[..n]);
      assert (xs + ys)[..|xs| + n] == xs + ys[..n];
    }
  }

  lemma {:induction false} FilterAll<T(!new)>(p: T -> bool, xs: seq<T>)
    requires forall i :: 0 <= i < |xs| ==> p(xs[i])
    ensures Filter(p, xs) == xs
  {
    if xs != [] {
      var n := |xs| - 1;
      FilterAll(p, xs[..n]);
      assert xs == xs[..n] + [xs[n]];
    }
  }

  lemma {:induction false} FilterNone<T(!new)>(p: T -> bool, xs: seq<T>)
    requires forall i :: 0 <= i < |xs| ==> !p(xs[i])
    ensures Filter(p, xs) == []
  {
    if xs != [] {
      FilterNone(p, xs[..|xs| - 1]);
    }
  }

  lemma {:induction false} FilterConcat<T(!new)>(p: T -> bool, xs: seq<T>, ys: seq<T>)
    ensures Filter(p, xs + ys) == Filter(p, xs) + Filter(p, ys)
  {
    if ys == [] {
      assert xs + ys == xs;
      assert Filter(p, ys) == [];
    } else {
      var n := |ys| - 1;
      assert (xs + ys)[..|xs| + n] == xs + ys[..n];
      FilterConcat(p, xs, ys[..n]);
      assert (xs + ys)[|xs + ys| - 1] == ys[n];
    }
  }

  /** Filtering twice keeps what passes both tests. */
  lemma {:induction false} FilterTwice<T(!new)>(p: T -> bool, q: T -> bool, both: T -> bool, xs: seq<T>)
    requires forall x :: both(x) <==> p(x) && q(x)
    ensures Filter(p, Filter(q, xs)) == Filter(both, xs)
  {
    if xs != [] {
      var n := |xs| - 1;
      FilterTwice(p, q, both, xs[..n]);
      var front := Filter(q, xs[..n]);
      assert (front + [xs[n]])[..|front|] == front;
    }
  }

  lemma {:induction false} FilterSame<T(!new)>(p: T -> bool, q: T -> bool, xs: seq<T>)
    requires forall x :: x in xs ==> p(x) == q(x)
    ensures Filter(p, xs) == Filter(q, xs)
  {
    if xs != [] {
      FilterSame(p, q, xs[..|xs| - 1]);
    }
  }

  lemma {:induction false} CountConcat<T(!new)>(p: T -> bool, xs: seq<T>, ys: seq<T>)
    ensures Count(p, xs + ys) == Count(p, xs) + Count(p, ys)
  {
    if ys == [] {
      assert xs + ys == xs;
    } else {
      var n := |ys| - 1;
      assert (xs + ys)[..|xs| + n] == xs + ys[..n];
      CountConcat(p, xs, ys[..n]);
    }
  }

  lemma {:induction false} SumConcat<T(!new)>(f: T -> int, xs: seq<T>, ys: seq<T>)
    ensures Sum(f, xs + ys) == Sum(f, xs) + Sum(f, ys)
  {
    if ys == [] {
      assert xs + ys == xs;
    } else {
      var n := |ys| - 1;
      assert (xs + ys)[..|xs| + n] == xs + ys[..n];
      SumConcat(f, xs, ys[..n]);
    }
  }

  lemma {:induction false} RemoveAt<T(!new)>(xs: seq<T>, j: nat)
    requires j < |xs|
    ensures xs == xs[..j] + [xs[j]] + xs[j + 1..]
    ensures multiset(xs[..j] + xs[j + 1..]) == multiset(xs) - multiset{xs[j]}
  {
    assert xs == xs[..j] + [xs[j]] + xs[j + 1..];
  }

  lemma {:induction false} SumOne<T(!new)>(f: T -> int, x: T)
    ensures Sum(f, [x]) == f(x)
  {
    assert [x][..0] == [];
  }

  lemma {:induction false} SumPermutation<T(!new)>(f: T -> int, xs: seq<T>, ys: seq<T>)
    requires multiset(xs) == multiset(ys)
    ensures Sum(f, xs) == Sum(f, ys)
    decreases |xs|
  {
    if xs == [] {
      assert |multiset(ys)| == 0;
    } else {
      var n := |xs| - 1;
      assert xs == xs[..n] + [xs[n]];
      assert xs[n] in multiset(ys);
      var j :| 0 <= j < |ys| && ys[j] == xs[n];
      RemoveAt(ys, j);
      var rest := ys[..j] + ys[j + 1..];
      assert multiset(xs[..n]) == multiset(xs) - multiset{xs[n]};
      SumPermutation(f, xs[..n], rest);
      SumConcat(f, ys[..j] + [ys[j]], ys[j + 1..]);
      SumConcat(f, ys[..j], ys[j + 1..]);
    }
  }

  lemma {:induction false} CountIsSum<T(!new)>(p: T -> bool, xs: seq<T>)
    ensures Count(p, xs) == Sum(x => if p(x) then 1 else 0, xs)
  {
    if xs != [] {
      CountIsSum(p, xs[..|xs| - 1]);
    }
  }

  lemma {:induction false} CountPermutation<T(!new)>(p: T -> bool, xs: seq<T>, ys: seq<T>)
    requires multiset(xs) == multiset(ys)
    ensures Count(p, xs) == Count(p, ys)
  {
    CountIsSum(p, xs);
    CountIsSum(p, ys);
    SumPermutation(x => if p(x) then 1 else 0, xs, ys);
  }

  lemma {:induction false} CountMonotone<T(!new)>(p: T -> bool, q: T -> bool, xs: seq<T>)
    requires forall x :: x in xs && p(x) ==> q(x)
    ensures Count(p, xs) <= Count(q, xs)
  {
    if xs != [] {
      CountMonotone(p, q, xs[..|xs| - 1]);
    }
  }

  lemma {:induction false} SumUpdate<T(!new)>(f: T -> int, xs: seq<T>, i: nat, x: T)
    requires i < |xs|
    ensures Sum(f, xs[i := x]) == Sum(f, xs) - f(xs[i]) + f(x)
  {
    var n := |xs| - 1;
    if i < n {
      SumUpdate(f, xs[..n], i, x);
      assert xs[i := x][..n] == xs[..n][i := x];
    } else {
      assert xs[i := x][..n] == xs[..n];
    }
  }

  lemma {:induction false} CountUpdate<T(!new)>(p: T -> bool, xs: seq<T>, i: nat, x: T)
    requires i < |xs|
    ensures Count(p, xs[i := x]) == Count(p, xs) - (if p(xs[i]) then 1 else 0) + (if p(x) then 1 else 0)
  {
    CountIsSum(p, xs);
    CountIsSum(p, xs[i := x]);
    SumUpdate(y => if p(y) then 1 else 0, xs, i, x);
  }

  lemma {:induction false} CountPrefixStep<T(!new)>(p: T -> bool, xs: seq<T>, i: nat)
    requires i < |xs|
    ensures Count(p, xs[..i + 1]) == Count(p, xs[..i]) + if p(xs[i]) then 1 else 0
  {
    PrefixStep(xs, i);
  }

  lemma {:induction false} SumPrefixStep<T(!new)>(f: T -> int, xs: seq<T>, i: nat)
    requires i < |xs|
    ensures Sum(f, xs[..i + 1]) == Sum(f, xs[..i]) + f(xs[i])
  {
    PrefixStep(xs, i);
  }

  lemma {:induction false} SumOfMapped<T(!new)>(f: T -> int, g: T -> T, change: T -> int, xs: seq<T>)
    requires forall x :: change(x) == f(g(x)) - f(x)
    ensures Sum(f, MapSeq(g, xs)) == Sum(f, xs) + Sum(change, xs)
  {
    if xs != [] {
      var n := |xs| - 1;
      SumOfMapped(f, g, change, xs[..n]);
      assert MapSeq(g, xs)[..n] == MapSeq(g, xs[..n]);
    }
  }

  lemma {:induction false} SumNonNegative<T(!new)>(f: T -> int, xs: seq<T>)
    requires forall x :: x in xs ==> f(x) >= 0
    ensures Sum(f, xs) >= 0
    ensures forall x :: x in xs ==> f(x) <= Sum(f, xs)
  {
    if xs != [] {
      var n := |xs| - 1;
      assert xs == xs[..n] + [xs[n]];
      SumNonNegative(f, xs[..n]);
    }
  }

  /** The values that are present, in order. */
  function Somes<T(!new)>(items: seq<Option<T>>): seq<T> {
    if items == [] then []
    else Somes(items[..|items| - 1]) + if items[|items| - 1].Some? then [items[|items| - 1].value] else []
  }

  lemma {:induction false} SomesContents<T(!new)>(items: seq<Option<T>>, x: T)
    ensures x in Somes(items) <==> Some(x) in items
  {
    if items != [] {
      var n := |items| - 1;
      assert items == items[..n] + [items[n]];
      SomesContents(items[..n], x);
    }
  }

  /** Every value, marked as present. */
  function AllSome<T(!new)>(xs: seq<T>): (r: seq<Option<T>>)
    ensures |r| == |xs| && forall i :: 0 <= i < |xs| ==> r[i] == Some(xs[i])
  {
    MapSeq((x: T) => Some(x), xs)
  }

  lemma {:induction false} SomesOfAllSome<T(!new)>(xs: seq<T>)
    ensures Somes(AllSome(xs)) == xs
  {
    if xs != [] {
      var n := |xs| - 1;
      SomesOfAllSome(xs[..n]);
      assert AllSome(xs)[..n] == AllSome(xs[..n]);
      assert xs == xs[..n] + [xs[n]];
    }
  }

  lemma {:induction false} OnceEach<T(!new)>(xs: seq<T>, x: T)
    requires Distinct(xs)
    ensures multiset(xs)[x] == if x in xs then 1 else 0
  {
    if xs != [] {
      var n := |xs| - 1;
      OnceEach(xs[..n], x);
      assert xs == xs[..n] + [xs[n]];
      assert xs[n] !in xs[..n];
    }
  }

  lemma {:induction false} SameMembersSameMultiset<T(!new)>(xs: seq<T>, ys: seq<T>)
    requires Distinct(xs) && Distinct(ys) && forall x :: x in xs <==> x in ys
    ensures multiset(xs) == multiset(ys)
  {
    forall x ensures multiset(xs)[x] == multiset(ys)[x] {
      OnceEach(xs, x);
      OnceEach(ys, x);
    }
  }

  lemma {:induction false} TwiceCounted<T(!new)>(xs: seq<T>, i: nat, j: nat)
    requires i < j < |xs| && xs[i] == xs[j]
    ensures multiset(xs)[xs[i]] >= 2
  {
    assert xs == xs[..j] + [xs[j]] + xs[j + 1..];
    assert xs[i] in xs[..j];
    assert xs[i] in multiset(xs[..j]);
  }

  lemma {:induction false} FilterKeepsDistinct<T(!new)>(p: T -> bool, xs: seq<T>)
    requires Distinct(xs)
    ensures Distinct(Filter(p, xs))
  {
    if xs != [] {
      var n := |xs| - 1;
      FilterKeepsDistinct(p, xs[..n]);
      FilterContents(p, xs[..n]);
    }
  }

  /** Rearranging keeps a sequence duplicate-free. */
  lemma {:induction false} PermutationKeepsDistinct<T(!new)>(xs: seq<T>, ys: seq<T>)
    requires Distinct(xs) && multiset(xs) == multiset(ys)
    ensures Distinct(ys)
  {
    forall i, j | 0 <= i < j < |ys| ensures ys[i] != ys[j] {
      if ys[i] == ys[j] {
        TwiceCounted(ys, i, j);
        OnceEach(xs, ys[i]);
      }
    }
  }

  lemma {:induction false} MapCounts<S(!new), T(!new)>(f: S -> T, xs: seq<S>, y: T)
    ensures multiset(MapSeq(f, xs))[y] == Count((x: S) => f(x) == y, xs)
  {
    if xs != [] {
      var n := |xs| - 1;
      MapCounts(f, xs[..n], y);
      assert MapSeq(f, xs) == MapSeq(f, xs[..n]) + [f(xs[n])];
    }
  }

  lemma {:induction false} MapPermutation<S(!new), T(!new)>(f: S -> T, xs: seq<S>, ys: seq<S>)
    requires multiset(xs) == multiset(ys)
    ensures multiset(MapSeq(f, xs)) == multiset(MapSeq(f, ys))
  {
    forall y ensures multiset(MapSeq(f, xs))[y] == multiset(MapSeq(f, ys))[y] {
      MapCounts(f, xs, y);
      MapCounts(f, ys, y);
      CountPermutation((x: S) => f(x) == y, xs, ys);
    }
  }

  /** A duplicate-free sequence over a finite set is no longer than the set is large. */
  lemma {:induction false} DistinctBounded<T(!new)>(xs: seq<T>, s: set<T>)
    requires Distinct(xs) && forall x :: x in xs ==> x in s
    ensures |xs| <= |s|
  {
    if xs != [] {
      var n := |xs| - 1;
      forall x | x in xs[..n] ensures x in s - {xs[n]} {
        var i :| 0 <= i < n && xs[i] == x;
      }
      DistinctBounded(xs[..n], s - {xs[n]});
    }
  }
}

/** Comparators and the stable sort that `Array.prototype.sort` performs with them. */
module Ordering {
  import opened Sequences

  type Leq<!T> = (T, T) -> bool

  ghost predicate TotalPreorder<T(!new)>(leq: Leq<T>) {
    && (forall a, b :: leq(a, b) || leq(b, a))
    && (forall a, b, c :: leq(a, b) && leq(b, c) ==> leq(a, c))
  }

  ghost predicate Sorted<T(!new)>(leq: Leq<T>, xs: seq<T>) {
    forall i, j :: 0 <= i < j < |xs| ==> leq(xs[i], xs[j])
  }

  /** Puts `x` before the first element it does not exceed, so that earlier elements stay first among equals. */
  function Insert<T(!new)>(leq: Leq<T>, x: T, xs: seq<T>): (r: seq<T>)
    ensures multiset(r) == multiset(xs) + multiset{x}
    ensures |r| == |xs| + 1
  {
    if xs == [] then [x]
    else if leq(x, xs[0]) then
      assert [x] + xs == [x] + xs;
      [x] + xs
    else
      assert xs == [xs[0]] + xs[1..];
      [xs[0]] + Insert(leq, x, xs[1..])
  }

  function StableSort<T(!new)>(leq: Leq<T>, xs: seq<T>): (r: seq<T>)
    ensures multiset(r) == multiset(xs)
    ensures |r| == |xs|
  {
    if xs == [] then []
    else
      assert xs == [xs[0]] + xs[1..];
      Insert(leq, xs[0], StableSort(leq, xs[1..]))
  }

  lemma {:induction false} StableSortContents<T(!new)>(leq: Leq<T>, xs: seq<T>)
    ensures forall x :: x in StableSort(leq, xs) <==> x in xs
  {
    forall x ensures x in StableSort(leq, xs) <==> x in xs {
      assert x in StableSort(leq, xs) <==> x in multiset(StableSort(leq, xs));
      assert x in xs <==> x in multiset(xs);
    }
  }

  lemma {:induction false} InsertSorted<T(!new)>(leq: Leq<T>, x: T, xs: seq<T>)
    requires TotalPreorder(leq) && Sorted(leq, xs)
    ensures Sorted(leq, Insert(leq, x, xs))
  {
    if xs != [] && !leq(x, xs[0]) {
      InsertSorted(leq, x, xs[1..]);
      var tail := Insert(leq, x, xs[1..]);
      forall j | 0 <= j < |tail| ensures leq(xs[0], tail[j]) {
        assert tail[j] in multiset(tail);
        if tail[j] != x {
          assert tail[j] in multiset(xs[1..]);
        }
      }
    }
  }

  lemma {:induction false} StableSortSorted<T(!new)>(leq: Leq<T>, xs: seq<T>)
    requires TotalPreorder(leq)
    ensures Sorted(leq, StableSort(leq, xs))
  {
    if xs != [] {
      StableSortSorted(leq, xs[1..]);
      InsertSorted(leq, xs[0], StableSort(leq, xs[1..]));
    }
  }

  /** A sorted sequence is left as it is. */
  lemma {:induction false} StableSortFixed<T(!new)>(leq: Leq<T>, xs: seq<T>)
    requires Sorted(leq, xs)
    ensures StableSort(leq, xs) == xs
  {
    if xs != [] {
      StableSortFixed(leq, xs[1..]);
      if |xs| > 1 {
        assert leq(xs[0], xs[1]);
      }
    }
  }

  /** Equal to `c` as far as the comparator can tell. */
  function Alike<T(!new)>(leq: Leq<T>, c: T): T -> bool {
    (x: T) => leq(x, c) && leq(c, x)
  }

  lemma {:induction false} InsertStable<T(!new)>(leq: Leq<T>, x: T, xs: seq<T>, c: T)
    requires TotalPreorder(leq)
    ensures Filter(Alike(leq, c), Insert(leq, x, xs)) == Filter(Alike(leq, c), [x]) + Filter(Alike(leq, c), xs)
  {
    var p := Alike(leq, c);
    if xs == [] {
      assert Filter(p, xs) == [];
    } else if leq(x, xs[0]) {
      FilterConcat(p, [x], xs);
    } else {
      var y, rest := xs[0], xs[1..];
      InsertStable(leq, x, rest, c);
      assert xs == [y] + rest && Insert(leq, x, xs) == [y] + Insert(leq, x, rest);
      NotAlike(leq, x, y, c);
      hide Insert, Filter, TotalPreorder;
      FilterConcat(p, [y], Insert(leq, x, rest));
      FilterConcat(p, [y], rest);
    }
  }

  lemma {:induction false} NotAlike<T(!new)>(leq: Leq<T>, x: T, y: T, c: T)
    requires TotalPreorder(leq) && !leq(x, y)
    ensures Filter(Alike(leq, c), [x]) == [] || Filter(Alike(leq, c), [y]) == []
  {
    var p := Alike(leq, c);
    assert p(x) && p(y) ==> leq(x, c) && leq(c, y);
    assert [x][..0] == [] && [y][..0] == [];
  }

  /** Elements the comparator cannot tell apart keep their order. */
  lemma {:induction false} StableSortStable<T(!new)>(leq: Leq<T>, xs: seq<T>, c: T)
    requires TotalPreorder(leq)
    ensures Filter(Alike(leq, c), StableSort(leq, xs)) == Filter(Alike(leq, c), xs)
  {
    if xs != [] {
      StableSortStable(leq, xs[1..], c);
      InsertStable(leq, xs[0], StableSort(leq, xs[1..]), c);
      FilterConcat(Alike(leq, c), [xs[0]], xs[1..]);
      assert xs == [xs[0]] + xs[1..];
    }
  }

  lemma {:induction false} SameLeast<T(!new)>(leq: Leq<T>, xs: seq<T>, ys: seq<T>)
    requires TotalPreorder(leq) && Sorted(leq, xs) && Sorted(leq, ys)
    requires multiset(xs) == multiset(ys) && xs != [] && ys != []
    ensures leq(xs[0], ys[0]) && leq(ys[0], xs[0]) && ys[0] in xs
  {
    assert ys[0] in multiset(xs) && xs[0] in multiset(ys);
    assert leq(xs[0], xs[0]) && leq(ys[0], ys[0]);
  }

  /** Two sorted arrangements of the same elements agree when equivalent elements are equal. */
  lemma {:induction false} SortedUnique<T(!new)>(leq: Leq<T>, xs: seq<T>, ys: seq<T>)
    requires TotalPreorder(leq) && Sorted(leq, xs) && Sorted(leq, ys)
    requires multiset(xs) == multiset(ys)
    requires forall a, b :: a in xs && b in xs && leq(a, b) && leq(b, a) ==> a == b
    ensures xs == ys
  {
    assert |multiset(xs)| == |xs| && |multiset(ys)| == |ys|;
    if xs != [] {
      SameLeast(leq, xs, ys);
      assert xs == [xs[0]] + xs[1..] && ys == [ys[0]] + ys[1..];
      assert multiset(xs[1..]) == multiset(xs) - multiset{xs[0]};
      SortedUnique(leq, xs[1..], ys[1..]);
    }
  }
}

/** Minima, the safe integers of JavaScript, and bounds on integer quotients. */
module Numbers {

  const MAX_SAFE: int := 9007199254740991

  /** Neither negative nor beyond `Number.MAX_SAFE_INTEGER`. */
  predicate Safe(x: int) {
    0 <= x <= MAX_SAFE
  }

  function Min(a: int, b: int): int {
    if a <= b then a else b
  }

  lemma {:induction false} MulMonotone(a: int, b: int, d: int)
    requires a <= b && d >= 0
    ensures a * d <= b * d
  {
    assert (b - a) * d >= 0;
  }

  lemma {:induction false} DivAtMost(n: int, d: int, hi: int)
    requires d > 0 && n < (hi + 1) * d
    ensures n / d <= hi
  {
    var q := n / d;
    assert n == q * d + n % d;
    if q > hi {
      MulMonotone(hi + 1, q, d);
    }
  }

  lemma {:induction false} DivAtLeast(n: int, d: int, lo: int)
    requires d > 0 && lo * d <= n
    ensures n / d >= lo
  {
    var q := n / d;
    assert n == q * d + n % d && n % d < d;
    if q < lo {
      MulMonotone(q + 1, lo, d);
    }
  }

  lemma {:induction false} DivMonotone(n: int, m: int, d: int)
    requires d > 0 && n <= m
    ensures n / d <= m / d
  {
    var q := n / d;
    assert n == q * d + n % d;
    DivAtLeast(m, d, q);
  }
}
