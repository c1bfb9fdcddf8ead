/** Python's stable `list.sort`, over an arbitrary total preorder. */
module StableSort {

  ghost predicate TotalPreorder<T(!new)>(le: (T, T) -> bool) {
    && (forall x, y :: le(x, y) || le(y, x))
    && (forall x, y, z :: le(x, y) && le(y, z) ==> le(x, z))
  }

  /** Insert x after every element that may stand before it. */
  function Insert<T>(le: (T, T) -> bool, sorted: seq<T>, x: T): (r: seq<T>)
    ensures |r| == |sorted| + 1
  {
    if sorted != [] && le(sorted[0], x) then [sorted[0]] + Insert(le, sorted[1..], x) else [x] + sorted
  }

  /** The stable sort: elements are inserted in list order. */
  function Sort<T>(le: (T, T) -> bool, xs: seq<T>): (r: seq<T>)
    ensures |r| == |xs|
  {
    if xs == [] then [] else Insert(le, Sort(le, xs[..|xs| - 1]), xs[|xs| - 1])
  }

  predicate Sorted<T>(le: (T, T) -> bool, xs: seq<T>) {
    forall i, j | 0 <= i < j < |xs| :: le(xs[i], xs[j])
  }

  function Filter<T>(keep: T -> bool, xs: seq<T>): (r: seq<T>)
    ensures |r| <= |xs|
  {
    if xs == [] then []
    else if keep(xs[0]) then [xs[0]] + Filter(keep, xs[1..])
    else Filter(keep, xs[1..])
  }

  /** The first n elements, Python's xs[:n] for n >= 0. */
  function Take<T>(n: nat, xs: seq<T>): (r: seq<T>) {
    if n < |xs| then xs[..n] else xs
  }

  // ----- filters

  lemma FilterCons<T>(keep: T -> bool, x: T, xs: seq<T>)
    ensures Filter(keep, [x] + xs) == if keep(x) then [x] + Filter(keep, xs) else Filter(keep, xs)
  {
    assert ([x] + xs)[1..] == xs;
  }

  lemma {:induction false} FilterAppend<T>(keep: T -> bool, xs: seq<T>, ys: seq<T>)
    ensures Filter(keep, xs + ys) == Filter(keep, xs) + Filter(keep, ys)
  {
    if xs == [] {
      assert xs + ys == ys;
    } else {
      FilterAppend(keep, xs[1..], ys);
      ConsAppend(xs[0], xs[1..], ys);
      FilterCons(keep, xs[0], xs[1..] + ys);
      ConsAppend(xs[0], Filter(keep, xs[1..]), Filter(keep, ys));
      assert xs == [xs[0]] + xs[1..];
    }
  }

  lemma ConsAppend<T>(x: T, xs: seq<T>, ys: seq<T>)
    ensures ([x] + xs) + ys == [x] + (xs + ys)
  {
  }

  lemma {:induction false} FilterContents<T>(keep: T -> bool, xs: seq<T>)
    ensures forall x | x in Filter(keep, xs) :: x in xs && keep(x)
    ensures forall x | x in xs && keep(x) :: x in Filter(keep, xs)
  {
    if xs != [] {
      FilterContents(keep, xs[1..]);
      assert xs == [xs[0]] + xs[1..];
    }
  }

  // ----- the sort is sorted, a permutation, and stable

  lemma {:induction false} InsertContents<T>(le: (T, T) -> bool, sorted: seq<T>, x: T)
    ensures multiset(Insert(le, sorted, x)) == multiset(sorted) + multiset{x}
  {
    if sorted != [] && le(sorted[0], x) {
      InsertContents(le, sorted[1..], x);
      assert sorted == [sorted[0]] + sorted[1..];
    }
  }

  lemma {:induction false} InsertSorted<T(!new)>(le: (T, T) -> bool, sorted: seq<T>, x: T)
    requires TotalPreorder(le) && Sorted(le, sorted)
    ensures Sorted(le, Insert(le, sorted, x))
  {
    var r := Insert(le, sorted, x);
    if sorted != [] && le(sorted[0], x) {
      InsertSorted(le, sorted[1..], x);
      InsertContents(le, sorted[1..], x);
      forall y | y in r[1..] ensures le(r[0], y) {
        assert y in multiset(r[1..]);
        assert y in multiset(sorted[1..]) || y == x;
      }
    } else {
      forall j | 0 <= j < |sorted| ensures le(x, sorted[j]) {
        assert j > 0 ==> le(sorted[0], sorted[j]);
      }
    }
  }

  lemma {:induction false} SortIsSortedPermutation<T(!new)>(le: (T, T) -> bool, xs: seq<T>)
    requires TotalPreorder(le)
    ensures Sorted(le, Sort(le, xs))
    ensures multiset(Sort(le, xs)) == multiset(xs)
  {
    if xs != [] {
      var init, last := xs[..|xs| - 1], xs[|xs| - 1];
      SortIsSortedPermutation(le, init);
      InsertSorted(le, Sort(le, init), last);
      InsertContents(le, Sort(le, init), last);
      assert xs == init + [last];
    }
  }

  lemma FilterKeepsHeadBound<T(!new)>(le: (T, T) -> bool, sorted: seq<T>, x: T, keep: T -> bool)
    requires TotalPreorder(le) && Sorted(le, sorted) && (sorted == [] || !le(sorted[0], x))
    ensures var kept := Filter(keep, sorted); kept == [] || !le(kept[0], x)
  {
    var kept := Filter(keep, sorted);
    FilterContents(keep, sorted);
    if kept != [] {
      assert kept[0] in sorted;
      var j :| 0 <= j < |sorted| && sorted[j] == kept[0];
      assert j > 0 ==> le(sorted[0], sorted[j]);
    }
  }

  lemma InsertFilterPast<T>(le: (T, T) -> bool, sorted: seq<T>, x: T, keep: T -> bool)
    requires sorted != [] && le(sorted[0], x)
    requires Filter(keep, Insert(le, sorted[1..], x)) ==
             if keep(x) then Insert(le, Filter(keep, sorted[1..]), x) else Filter(keep, sorted[1..])
    ensures Filter(keep, Insert(le, sorted, x)) ==
            if keep(x) then Insert(le, Filter(keep, sorted), x) else Filter(keep, sorted)
  {
    var r, rest := Insert(le, sorted, x), Insert(le, sorted[1..], x);
    assert r == [sorted[0]] + rest && r[1..] == rest;
    if keep(sorted[0]) {
      var kept := Filter(keep, sorted[1..]);
      assert ([sorted[0]] + kept)[1..] == kept;
      assert Filter(keep, r) == [sorted[0]] + Filter(keep, rest);
      assert Insert(le, [sorted[0]] + kept, x) == [sorted[0]] + Insert(le, kept, x);
    } else {
      assert Filter(keep, r) == Filter(keep, rest);
    }
  }

  lemma InsertFilterHere<T>(le: (T, T) -> bool, sorted: seq<T>, x: T, keep: T -> bool)
    requires sorted == [] || !le(sorted[0], x)
    requires Filter(keep, sorted) == [] || !le(Filter(keep, sorted)[0], x)
    ensures Filter(keep, Insert(le, sorted, x)) ==
            if keep(x) then Insert(le, Filter(keep, sorted), x) else Filter(keep, sorted)
  {
    var r := Insert(le, sorted, x);
    assert r[0] == x && r[1..] == sorted;
  }

  lemma {:induction false} InsertFilter<T(!new)>(le: (T, T) -> bool, sorted: seq<T>, x: T, keep: T -> bool)
    requires TotalPreorder(le) && Sorted(le, sorted)
    ensures Filter(keep, Insert(le, sorted, x)) ==
            if keep(x) then Insert(le, Filter(keep, sorted), x) else Filter(keep, sorted)
  {
    if sorted != [] && le(sorted[0], x) {
      InsertFilter(le, sorted[1..], x, keep);
      InsertFilterPast(le, sorted, x, keep);
    } else {
      FilterKeepsHeadBound(le, sorted, x, keep);
      InsertFilterHere(le, sorted, x, keep);
    }
  }

  lemma FilterLast<T>(keep: T -> bool, init: seq<T>, last: T)
    ensures Filter(keep, init + [last]) == if keep(last) then Filter(keep, init) + [last] else Filter(keep, init)
  {
    FilterAppend(keep, init, [last]);
    assert [last][1..] == [];
    assert Filter(keep, [last]) == if keep(last) then [last] else [];
  }

  lemma SortLast<T>(le: (T, T) -> bool, init: seq<T>, last: T)
    ensures Sort(le, init + [last]) == Insert(le, Sort(le, init), last)
  {
    assert (init + [last])[..|init|] == init;
  }

  /** Sorting commutes with filtering. With the filter "tied with x" this is stability: tied
      elements keep their list order. */
  lemma {:induction false} SortFilter<T(!new)>(le: (T, T) -> bool, xs: seq<T>, keep: T -> bool)
    requires TotalPreorder(le)
    ensures Filter(keep, Sort(le, xs)) == Sort(le, Filter(keep, xs))
  {
    if xs != [] {
      var init, last := xs[..|xs| - 1], xs[|xs| - 1];
      assert xs == init + [last];
      SortFilter(le, init, keep);
      SortIsSortedPermutation(le, init);
      InsertFilter(le, Sort(le, init), last, keep);
      SortLast(le, init, last);
      FilterLast(keep, init, last);
      SortLast(le, Filter(keep, init), last);
    }
  }

  predicate Tied<T>(le: (T, T) -> bool, x: T, y: T) {
    le(x, y) && le(y, x)
  }

  lemma {:induction false} SortTiedIsIdentity<T(!new)>(le: (T, T) -> bool, xs: seq<T>)
    requires forall x, y | x in xs && y in xs :: le(x, y)
    ensures Sort(le, xs) == xs
  {
    if xs != [] {
      var init, last := xs[..|xs| - 1], xs[|xs| - 1];
      SortTiedIsIdentity(le, init);
      InsertAtEnd(le, init, last);
      assert xs == init + [last];
    }
  }

  lemma {:induction false} InsertAtEnd<T>(le: (T, T) -> bool, sorted: seq<T>, x: T)
    requires forall y | y in sorted :: le(y, x)
    ensures Insert(le, sorted, x) == sorted + [x]
  {
    if sorted != [] {
      InsertAtEnd(le, sorted[1..], x);
      assert sorted == [sorted[0]] + sorted[1..];
    }
  }

  /** The elements of xs tied with x, in list order. */
  function TiedTo<T>(le: (T, T) -> bool, x: T, xs: seq<T>): seq<T> {
    Filter(y => Tied(le, x, y), xs)
  }

  /** Stability: elements tied with x appear in the result in their original order. */
  lemma Stability<T(!new)>(le: (T, T) -> bool, xs: seq<T>, x: T)
    requires TotalPreorder(le)
    ensures TiedTo(le, x, Sort(le, xs)) == TiedTo(le, x, xs)
  {
    var keep := y => Tied(le, x, y);
    SortFilter(le, xs, keep);
    FilterContents(keep, xs);
    SortTiedIsIdentity(le, Filter(keep, xs));
  }

  lemma HeadIsTied<T(!new)>(le: (T, T) -> bool, xs: seq<T>)
    requires TotalPreorder(le) && xs != []
    ensures TiedTo(le, xs[0], xs) != [] && TiedTo(le, xs[0], xs)[0] == xs[0]
  {
  }

  lemma TiedTail<T>(le: (T, T) -> bool, x: T, xs: seq<T>)
    requires xs != []
    ensures TiedTo(le, x, xs) == if Tied(le, x, xs[0]) then [xs[0]] + TiedTo(le, x, xs[1..]) else TiedTo(le, x, xs[1..])
  {
  }

  ghost predicate SameClasses<T(!new)>(le: (T, T) -> bool, xs: seq<T>, ys: seq<T>) {
    forall x :: TiedTo(le, x, xs) == TiedTo(le, x, ys)
  }

  lemma HeadComesFirst<T(!new)>(le: (T, T) -> bool, xs: seq<T>, ys: seq<T>)
    requires TotalPreorder(le) && Sorted(le, ys) && xs != [] && ys != [] && SameClasses(le, xs, ys)
    ensures le(ys[0], xs[0])
  {
    HeadIsTied(le, xs);
    assert xs[0] in TiedTo(le, xs[0], ys);
    FilterContents(y => Tied(le, xs[0], y), ys);
    var j :| 0 <= j < |ys| && ys[j] == xs[0];
    assert j > 0 ==> le(ys[0], ys[j]);
  }

  lemma SameHead<T(!new)>(le: (T, T) -> bool, xs: seq<T>, ys: seq<T>)
    requires TotalPreorder(le) && Sorted(le, xs) && Sorted(le, ys) && SameClasses(le, xs, ys)
    requires xs != [] && ys != []
    ensures xs[0] == ys[0]
  {
    HeadComesFirst(le, xs, ys);
    HeadComesFirst(le, ys, xs);
    HeadIsTied(le, xs);
    TiedTail(le, xs[0], ys);
  }

  lemma {:induction false} SameClassesSameList<T(!new)>(le: (T, T) -> bool, xs: seq<T>, ys: seq<T>)
    requires TotalPreorder(le) && Sorted(le, xs) && Sorted(le, ys) && SameClasses(le, xs, ys)
    ensures xs == ys
  {
    if xs != [] {
      HeadIsTied(le, xs);
      assert TiedTo(le, xs[0], ys) != [];
    }
    if ys != [] {
      HeadIsTied(le, ys);
      assert TiedTo(le, ys[0], xs) != [];
      SameHead(le, xs, ys);
      forall x ensures TiedTo(le, x, xs[1..]) == TiedTo(le, x, ys[1..]) {
        TiedTail(le, x, xs);
        TiedTail(le, x, ys);
        var tail := TiedTo(le, x, xs[1..]);
        assert TiedTo(le, x, xs) == TiedTo(le, x, ys);
        assert ([xs[0]] + tail)[1..] == tail;
      }
      SameClassesSameList(le, xs[1..], ys[1..]);
    }
  }

  /** Sort is the stable sort: the only sorted list in which tied elements stand as in xs. */
  lemma StableSortUnique<T(!new)>(le: (T, T) -> bool, xs: seq<T>, ys: seq<T>)
    requires TotalPreorder(le)
    ensures ys == Sort(le, xs) <==> Sorted(le, ys) && SameClasses(le, ys, xs)
  {
    SortIsSortedPermutation(le, xs);
    forall x ensures TiedTo(le, x, Sort(le, xs)) == TiedTo(le, x, xs) {
      Stability(le, xs, x);
    }
    if Sorted(le, ys) && SameClasses(le, ys, xs) {
      SameClassesSameList(le, ys, Sort(le, xs));
    }
  }

  // ----- top-k

  lemma {:induction false} InsertTake<T>(le: (T, T) -> bool, sorted: seq<T>, x: T, n: nat)
    ensures Take(n, Insert(le, sorted, x)) == Take(n, Insert(le, Take(n, sorted), x))
  {
    if n > 0 && sorted != [] && le(sorted[0], x) {
      InsertTake(le, sorted[1..], x, n - 1);
      TakeCons(n, sorted[0], sorted[1..]);
      TakeCons(n, sorted[0], Insert(le, sorted[1..], x));
      TakeCons(n, sorted[0], Insert(le, Take(n - 1, sorted[1..]), x));
      assert sorted == [sorted[0]] + sorted[1..];
    }
  }

  lemma TakeCons<T>(n: nat, x: T, xs: seq<T>)
    requires n > 0
    ensures Take(n, [x] + xs) == [x] + Take(n - 1, xs) && Take(n, [x] + xs)[1..] == Take(n - 1, xs)
  {
  }

  lemma {:induction false} InsertBeyond<T>(le: (T, T) -> bool, sorted: seq<T>, x: T, n: nat)
    requires n <= |sorted| && forall i | 0 <= i < n :: le(sorted[i], x)
    ensures Take(n, Insert(le, sorted, x)) == Take(n, sorted)
  {
    if n > 0 {
      InsertBeyond(le, sorted[1..], x, n - 1);
    }
  }

  lemma {:induction false} InsertKeepsLead<T(!new)>(le: (T, T) -> bool, sorted: seq<T>, x: T, y: T, j: nat)
    requires TotalPreorder(le) && j <= |sorted|
    requires le(x, y) && forall i | 0 <= i < j :: le(sorted[i], y)
    ensures forall i | 0 <= i <= j :: le(Insert(le, sorted, x)[i], y)
  {
    if j > 0 && le(sorted[0], x) {
      InsertKeepsLead(le, sorted[1..], x, y, j - 1);
      var r := Insert(le, sorted, x);
      forall i | 0 <= i <= j ensures le(r[i], y) {
        if i > 0 {
          assert r[i] == Insert(le, sorted[1..], x)[i - 1];
        }
      }
    } else if sorted != [] && le(sorted[0], x) {
      assert le(sorted[0], y);
    }
  }

  /** The first n of the stable sort. */
  function TopK<T>(le: (T, T) -> bool, n: nat, xs: seq<T>): seq<T> {
    Take(n, Sort(le, xs))
  }

  lemma TopKStep<T>(le: (T, T) -> bool, n: nat, xs: seq<T>, x: T)
    ensures TopK(le, n, xs + [x]) == Take(n, Insert(le, TopK(le, n, xs), x))
  {
    assert (xs + [x])[..|xs|] == xs;
    InsertTake(le, Sort(le, xs), x, n);
  }

  /** Appending the same elements to lists with equal top-k gives equal top-k. */
  lemma {:induction false} TopKCongruence<T>(le: (T, T) -> bool, n: nat, xs: seq<T>, ys: seq<T>, tail: seq<T>)
    requires TopK(le, n, xs) == TopK(le, n, ys)
    ensures TopK(le, n, xs + tail) == TopK(le, n, ys + tail)
  {
    if tail == [] {
      assert xs + tail == xs && ys + tail == ys;
    } else {
      var init, last := tail[..|tail| - 1], tail[|tail| - 1];
      TopKCongruence(le, n, xs, ys, init);
      TopKStep(le, n, xs + init, last);
      TopKStep(le, n, ys + init, last);
      assert xs + tail == xs + init + [last] && ys + tail == ys + init + [last];
    }
  }

  lemma {:induction false} LeadOfRun<T(!new)>(le: (T, T) -> bool, xs: seq<T>, run: seq<T>, y: T)
    requires TotalPreorder(le) && forall x | x in run :: le(x, y)
    ensures forall i | 0 <= i < |run| :: le(Sort(le, xs + run)[i], y)
  {
    if run != [] {
      var init, last := run[..|run| - 1], run[|run| - 1];
      LeadOfRun(le, xs, init, y);
      assert (xs + run)[..|xs + run| - 1] == xs + init;
      InsertKeepsLead(le, Sort(le, xs + init), last, y, |init|);
    }
  }

  /** Beyond its first n elements a sorted run cannot contribute to the top n. */
  lemma {:induction false} TopKOfRun<T(!new)>(le: (T, T) -> bool, n: nat, xs: seq<T>, run: seq<T>)
    requires TotalPreorder(le) && Sorted(le, run)
    ensures TopK(le, n, xs + run) == TopK(le, n, xs + Take(n, run))
  {
    if |run| > n {
      var init, last := run[..|run| - 1], run[|run| - 1];
      TopKOfRun(le, n, xs, init);
      assert Take(n, init) == Take(n, run);
      LeadOfRun(le, xs, init, last);
      InsertBeyond(le, Sort(le, xs + init), last, n);
      assert (xs + run)[..|xs + run| - 1] == xs + init;
    }
  }

  /** A sorted run cut to its first n elements merges like the whole run. */
  lemma MergeRun<T(!new)>(le: (T, T) -> bool, n: nat, merged: seq<T>, all: seq<T>, run: seq<T>)
    requires TotalPreorder(le) && Sorted(le, run) && TopK(le, n, merged) == TopK(le, n, all)
    ensures TopK(le, n, merged + Take(n, run)) == TopK(le, n, all + run)
  {
    TopKOfRun(le, n, all, run);
    TopKCongruence(le, n, merged, all, Take(n, run));
  }

  // ----- when two orders sort a list alike

  predicate Distinct<T(==)>(xs: seq<T>) {
    forall i, j | 0 <= i < j < |xs| :: xs[i] != xs[j]
  }

  /** The orders agree on every pair of elements, the earlier one first. */
  ghost predicate AgreeInOrder<T>(le: (T, T) -> bool, other: (T, T) -> bool, xs: seq<T>) {
    forall i, j | 0 <= i < j < |xs| :: le(xs[i], xs[j]) == other(xs[i], xs[j])
  }

  lemma {:induction false} InsertCongruence<T>(le: (T, T) -> bool, other: (T, T) -> bool, sorted: seq<T>, x: T)
    requires forall y | y in sorted :: le(y, x) == other(y, x)
    ensures Insert(le, sorted, x) == Insert(other, sorted, x)
  {
    if sorted != [] {
      InsertCongruence(le, other, sorted[1..], x);
    }
  }

  lemma {:induction false} SortCongruence<T(!new)>(le: (T, T) -> bool, other: (T, T) -> bool, xs: seq<T>)
    requires TotalPreorder(le) && AgreeInOrder(le, other, xs)
    ensures Sort(le, xs) == Sort(other, xs)
  {
    if xs != [] {
      var init, last := xs[..|xs| - 1], xs[|xs| - 1];
      SortCongruence(le, other, init);
      SortIsSortedPermutation(le, init);
      forall y | y in Sort(le, init) ensures le(y, last) == other(y, last) {
        assert y in multiset(Sort(le, init));
        var i :| 0 <= i < |init| && init[i] == y;
        assert xs[i] == y;
      }
      InsertCongruence(le, other, Sort(le, init), last);
    }
  }

  lemma SortPair<T>(le: (T, T) -> bool, x: T, y: T)
    ensures Sort(le, [x, y]) == if le(x, y) then [x, y] else [y, x]
  {
    assert [x, y][..1] == [x] && [x][..0] == [];
    assert Sort(le, [x]) == Insert(le, Sort(le, []), x) == [x];
    assert Insert(le, [x], y) == if le(x, y) then [x] + Insert(le, [], y) else [y, x];
  }

  lemma {:induction false} NothingKept<T>(keep: T -> bool, xs: seq<T>)
    requires forall x | x in xs :: !keep(x)
    ensures Filter(keep, xs) == []
  {
    if xs != [] {
      NothingKept(keep, xs[1..]);
    }
  }

  lemma FiveParts<T>(xs: seq<T>, i: nat, j: nat)
    requires i < j < |xs|
    ensures xs == xs[..i] + ([xs[i]] + (xs[i + 1..j] + ([xs[j]] + xs[j + 1..])))
  {
  }

  /** Two elements of a distinct list, picked out of it. */
  lemma PairKept<T>(xs: seq<T>, i: nat, j: nat)
    requires i < j < |xs| && Distinct(xs)
    ensures Filter((x: T) => x == xs[i] || x == xs[j], xs) == [xs[i], xs[j]]
  {
    var keep := (x: T) => x == xs[i] || x == xs[j];
    var front, middle, back := xs[..i], xs[i + 1..j], xs[j + 1..];
    NothingKept(keep, front);
    NothingKept(keep, middle);
    NothingKept(keep, back);
    FiveParts(xs, i, j);
    FilterAppend(keep, front, [xs[i]] + (middle + ([xs[j]] + back)));
    FilterCons(keep, xs[i], middle + ([xs[j]] + back));
    FilterAppend(keep, middle, [xs[j]] + back);
    FilterCons(keep, xs[j], back);
  }

  lemma PairAgrees<T(!new)>(le: (T, T) -> bool, other: (T, T) -> bool, xs: seq<T>, i: nat, j: nat)
    requires TotalPreorder(le) && TotalPreorder(other) && Distinct(xs) && i < j < |xs|
    requires Sort(le, xs) == Sort(other, xs)
    ensures le(xs[i], xs[j]) == other(xs[i], xs[j])
  {
    var keep := (x: T) => x == xs[i] || x == xs[j];
    PairKept(xs, i, j);
    SortFilter(le, xs, keep);
    SortFilter(other, xs, keep);
    SortPair(le, xs[i], xs[j]);
    SortPair(other, xs[i], xs[j]);
    assert [xs[i], xs[j]][0] != [xs[j], xs[i]][0];
  }

  /** Two orders sort a distinct list alike if and only if they agree on every pair in list order. */
  lemma SortsAgree<T(!new)>(le: (T, T) -> bool, other: (T, T) -> bool, xs: seq<T>)
    requires TotalPreorder(le) && TotalPreorder(other) && Distinct(xs)
    ensures Sort(le, xs) == Sort(other, xs) <==> AgreeInOrder(le, other, xs)
  {
    if AgreeInOrder(le, other, xs) {
      SortCongruence(le, other, xs);
    }
    if Sort(le, xs) == Sort(other, xs) {
      forall i, j | 0 <= i < j < |xs| ensures le(xs[i], xs[j]) == other(xs[i], xs[j]) {
        PairAgrees(le, other, xs, i, j);
      }
    }
  }

  lemma {:induction false} FilterDistinct<T>(keep: T -> bool, xs: seq<T>)
    requires Distinct(xs)
    ensures Distinct(Filter(keep, xs))
  {
    if xs != [] {
      FilterDistinct(keep, xs[1..]);
      FilterContents(keep, xs[1..]);
      assert xs[0] !in Filter(keep, xs[1..]);
    }
  }

  /** Filtering a cut list gives a beginning of the filtered whole. */
  lemma FilterOfTake<T>(keep: T -> bool, n: nat, xs: seq<T>)
    ensures Filter(keep, Take(n, xs)) <= Filter(keep, xs)
  {
    if n < |xs| {
      FilterAppend(keep, xs[..n], xs[n..]);
      assert xs == xs[..n] + xs[n..];
    }
  }
}
