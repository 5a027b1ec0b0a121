/** Stable sorting by a total preorder: Python's `list.sort` and MongoDB's `$sort`. */
module Sorting {
  ghost predicate TotalPreorder<T(!new)>(le: (T, T) -> bool) {
    && (forall x, y :: le(x, y) || le(y, x))
    && (forall x, y, z :: le(x, y) && le(y, z) ==> le(x, z))
  }

  ghost predicate SortedBy<T>(xs: seq<T>, le: (T, T) -> bool) {
    forall i, j :: 0 <= i < j < |xs| ==> le(xs[i], xs[j])
  }

  predicate Tied<T>(x: T, y: T, le: (T, T) -> bool) {
    le(x, y) && le(y, x)
  }

  /** The elements of `xs` that tie with `x`, in the order `xs` has them. */
  function Ties<T>(xs: seq<T>, x: T, le: (T, T) -> bool): seq<T> {
    if xs == [] then []
    else (if Tied(x, xs[0], le) then [xs[0]] else []) + Ties(xs[1..], x, le)
  }

  function Insert<T>(x: T, xs: seq<T>, le: (T, T) -> bool): seq<T> {
    if xs == [] || le(x, xs[0]) then [x] + xs
    else [xs[0]] + Insert(x, xs[1..], le)
  }

  function Sort<T>(xs: seq<T>, le: (T, T) -> bool): seq<T> {
    if xs == [] then [] else Insert(xs[0], Sort(xs[1..], le), le)
  }

  lemma {:induction false} InsertKeepsElements<T>(x: T, xs: seq<T>, le: (T, T) -> bool)
    ensures multiset(Insert(x, xs, le)) == multiset{x} + multiset(xs)
  {
    if xs != [] {
      assert xs == [xs[0]] + xs[1..];
      if !le(x, xs[0]) {
        InsertKeepsElements(x, xs[1..], le);
      }
    }
  }

  lemma {:induction false} InsertKeepsSorted<T(!new)>(x: T, xs: seq<T>, le: (T, T) -> bool)
    requires TotalPreorder(le) && SortedBy(xs, le)
    ensures SortedBy(Insert(x, xs, le), le)
  {
    if xs != [] && !le(x, xs[0]) {
      var rest := Insert(x, xs[1..], le);
      InsertKeepsSorted(x, xs[1..], le);
      InsertKeepsElements(x, xs[1..], le);
      forall j | 0 <= j < |rest| ensures le(xs[0], rest[j]) {
        assert rest[j] in multiset(rest);
      }
    }
  }

  lemma TiesOfFirst<T>(x: T, xs: seq<T>, y: T, le: (T, T) -> bool)
    ensures Ties([x] + xs, y, le) == (if Tied(y, x, le) then [x] else []) + Ties(xs, y, le)
  {
    assert ([x] + xs)[1..] == xs;
  }

  lemma {:induction false} InsertIsStable<T(!new)>(x: T, xs: seq<T>, y: T, le: (T, T) -> bool)
    requires TotalPreorder(le)
    ensures Ties(Insert(x, xs, le), y, le) == (if Tied(y, x, le) then [x] else []) + Ties(xs, y, le)
  {
    if xs == [] || le(x, xs[0]) {
      TiesOfFirst(x, xs, y, le);
    } else {
      InsertIsStable(x, xs[1..], y, le);
      TiesOfFirst(xs[0], Insert(x, xs[1..], le), y, le);
      TiesOfFirst(xs[0], xs[1..], y, le);
      assert [xs[0]] + xs[1..] == xs;
      assert !(Tied(y, x, le) && Tied(y, xs[0], le));
    }
  }

  /** Sorting orders, keeps every element, and keeps the order of the ones that tie. */
  lemma {:induction false} SortIsStableSort<T(!new)>(xs: seq<T>, le: (T, T) -> bool)
    requires TotalPreorder(le)
    ensures SortedBy(Sort(xs, le), le)
    ensures multiset(Sort(xs, le)) == multiset(xs)
    ensures forall y :: Ties(Sort(xs, le), y, le) == Ties(xs, y, le)
  {
    if xs != [] {
      var rest := Sort(xs[1..], le);
      SortIsStableSort(xs[1..], le);
      InsertKeepsSorted(xs[0], rest, le);
      InsertKeepsElements(xs[0], rest, le);
      assert xs == [xs[0]] + xs[1..];
      forall y ensures Ties(Sort(xs, le), y, le) == Ties(xs, y, le) {
        InsertIsStable(xs[0], rest, y, le);
      }
    }
  }

  lemma {:induction false} TiesAreElements<T>(xs: seq<T>, x: T, le: (T, T) -> bool)
    ensures forall y :: y in Ties(xs, x, le) <==> y in xs && Tied(x, y, le)
  {
    if xs != [] {
      TiesAreElements(xs[1..], x, le);
      assert xs == [xs[0]] + xs[1..];
    }
  }

  /** Order plus tie order pin the list down: there is only one stable sort of a list. */
  lemma {:induction false} StableSortIsUnique<T(!new)>(xs: seq<T>, ys: seq<T>, le: (T, T) -> bool)
    requires TotalPreorder(le)
    requires SortedBy(xs, le) && SortedBy(ys, le)
    requires forall x :: Ties(xs, x, le) == Ties(ys, x, le)
    ensures xs == ys
  {
    assert xs != [] ==> Ties(xs, xs[0], le) != [];
    assert ys != [] ==> Ties(ys, ys[0], le) != [];
    if xs != [] && ys != [] {
      TiesAreElements(xs, ys[0], le);
      TiesAreElements(ys, ys[0], le);
      TiesAreElements(xs, xs[0], le);
      TiesAreElements(ys, xs[0], le);
      assert ys[0] in Ties(xs, ys[0], le);
      assert xs[0] in Ties(ys, xs[0], le);
      assert Tied(xs[0], ys[0], le);
      assert Ties(xs, xs[0], le)[0] == xs[0];
      assert Ties(ys, xs[0], le)[0] == ys[0];
      forall x ensures Ties(xs[1..], x, le) == Ties(ys[1..], x, le) {
        var head := if Tied(x, xs[0], le) then [xs[0]] else [];
        assert Ties(xs, x, le) == head + Ties(xs[1..], x, le);
        assert Ties(ys, x, le) == head + Ties(ys[1..], x, le);
        assert Ties(xs, x, le)[|head|..] == Ties(ys, x, le)[|head|..];
      }
      StableSortIsUnique(xs[1..], ys[1..], le);
      assert xs == [xs[0]] + xs[1..] && ys == [ys[0]] + ys[1..];
    }
  }
}
