/** Sequence helpers shared by the backend and the client: duplicate-freedom and LINQ's `Distinct()`. */
module Lists {

  /** No element occurs twice. */
  predicate NoDuplicates<T(==)>(xs: seq<T>) {
    forall i, j :: 0 <= i < j < |xs| ==> xs[i] != xs[j]
  }

  /** The index of the first occurrence of `x`. */
  function FirstIndex<T(==)>(xs: seq<T>, x: T): (k: nat)
    requires x in xs
    ensures k < |xs| && xs[k] == x && x !in xs[..k]
  {
    if xs[0] == x then 0
    else
      var k := 1 + FirstIndex(xs[1..], x);
      assert xs[..k] == [xs[0]] + xs[1..][..k - 1];
      k
  }

  /**
   * LINQ's `Distinct()` under exact equality: each element at its first occurrence,
   * in the order of first occurrences.
   */
  function Distinct<T(==)>(xs: seq<T>): (r: seq<T>)
    ensures NoDuplicates(r)
    ensures forall i :: 0 <= i < |r| ==> r[i] in xs
    ensures forall i :: 0 <= i < |xs| ==> xs[i] in r
    decreases |xs|
  {
    if xs == [] then []
    else
      var d := Distinct(xs[..|xs| - 1]);
      var x := xs[|xs| - 1];
      assert forall i :: 0 <= i < |xs| - 1 ==> xs[i] == xs[..|xs| - 1][i];
      if x in d then d else d + [x]
  }

  /** A first occurrence is unique: it is the one `FirstIndex` finds. */
  lemma FirstIndexUnique<T>(xs: seq<T>, x: T, k: nat)
    requires k < |xs| && xs[k] == x && x !in xs[..k]
    ensures FirstIndex(xs, x) == k
  {
  }

  /** `Distinct()` keeps the order of first occurrences. */
  lemma {:induction false} DistinctKeepsFirstOccurrenceOrder<T>(xs: seq<T>)
    ensures forall i, j :: 0 <= i < j < |Distinct(xs)| ==>
      FirstIndex(xs, Distinct(xs)[i]) < FirstIndex(xs, Distinct(xs)[j])
    decreases |xs|
  {
    if xs != [] {
      var p := xs[..|xs| - 1];
      var d := Distinct(p);
      var x := xs[|xs| - 1];
      DistinctKeepsFirstOccurrenceOrder(p);
      forall y | y in p ensures FirstIndex(xs, y) == FirstIndex(p, y) {
        var k := FirstIndex(p, y);
        assert xs[..k] == p[..k];
        FirstIndexUnique(xs, y, k);
      }
      if x !in d {
        assert xs[..|xs| - 1] == p;
        FirstIndexUnique(xs, x, |xs| - 1);
        var r := d + [x];
        forall i, j | 0 <= i < j < |r| ensures FirstIndex(xs, r[i]) < FirstIndex(xs, r[j]) {
          if j < |d| {
            assert r[i] == d[i] && r[j] == d[j];
          } else {
            assert r[i] == d[i] && d[i] in p;
          }
        }
      }
    }
  }

  /** `Distinct()` leaves a duplicate-free sequence as it is. */
  lemma {:induction false} DistinctOfDuplicateFree<T>(xs: seq<T>)
    requires NoDuplicates(xs)
    ensures Distinct(xs) == xs
    decreases |xs|
  {
    if xs != [] {
      var p := xs[..|xs| - 1];
      DistinctOfDuplicateFree(p);
      assert xs[|xs| - 1] !in p;
      assert p + [xs[|xs| - 1]] == xs;
    }
  }

  /** A non-empty sequence is its prefix followed by its last element. */
  lemma PrefixAndLast<T>(xs: seq<T>)
    requires xs != []
    ensures xs[..|xs| - 1] + [xs[|xs| - 1]] == xs
  {
  }

  /** LINQ's `Where` / JavaScript's `filter`: the elements that satisfy `keep`, in order. */
  function Filter<T>(xs: seq<T>, keep: T -> bool): (r: seq<T>)
    ensures |r| <= |xs|
    ensures forall i :: 0 <= i < |r| ==> r[i] in xs && keep(r[i])
    ensures forall i :: 0 <= i < |xs| && keep(xs[i]) ==> xs[i] in r
    decreases |xs|
  {
    if xs == [] then []
    else
      var p := xs[..|xs| - 1];
      var r := Filter(p, keep);
      assert forall i :: 0 <= i < |xs| - 1 ==> xs[i] == p[i];
      if keep(xs[|xs| - 1]) then r + [xs[|xs| - 1]] else r
  }

  /** Filtering keeps every pairwise property of the kept elements in their original order. */
  lemma {:induction false} FilterPairwise<T>(xs: seq<T>, keep: T -> bool, ok: (T, T) -> bool)
    requires forall i, j :: 0 <= i < j < |xs| ==> ok(xs[i], xs[j])
    ensures forall i, j :: 0 <= i < j < |Filter(xs, keep)| ==> ok(Filter(xs, keep)[i], Filter(xs, keep)[j])
    decreases |xs|
  {
    if xs != [] {
      var p := xs[..|xs| - 1];
      var x := xs[|xs| - 1];
      FilterPairwise(p, keep, ok);
      var r := Filter(p, keep);
      if keep(x) {
        forall i, j | 0 <= i < j < |r + [x]| ensures ok((r + [x])[i], (r + [x])[j]) {
          if j < |r| {
            assert (r + [x])[i] == r[i] && (r + [x])[j] == r[j];
          } else {
            var k :| 0 <= k < |p| && p[k] == r[i];
            assert xs[k] == r[i];
          }
        }
      }
    }
  }

  /** Filtering keeps everything when every element passes. */
  lemma {:induction false} FilterAll<T>(xs: seq<T>, keep: T -> bool)
    requires forall i :: 0 <= i < |xs| ==> keep(xs[i])
    ensures Filter(xs, keep) == xs
    decreases |xs|
  {
    if xs != [] {
      FilterAll(xs[..|xs| - 1], keep);
      assert xs[..|xs| - 1] + [xs[|xs| - 1]] == xs;
    }
  }

  /** Filtering appended elements filters each part. */
  lemma {:induction false} FilterConcat<T>(xs: seq<T>, ys: seq<T>, keep: T -> bool)
    ensures Filter(xs + ys, keep) == Filter(xs, keep) + Filter(ys, keep)
    decreases |ys|
  {
    if ys == [] {
      assert xs + ys == xs;
    } else {
      var q := ys[..|ys| - 1];
      FilterConcat(xs, q, keep);
      assert (xs + ys)[..|xs + ys| - 1] == xs + q;
    }
  }

  /** Filtering keeps nothing when no element passes. */
  lemma FilterNone<T>(xs: seq<T>, keep: T -> bool)
    requires forall i :: 0 <= i < |xs| ==> !keep(xs[i])
    ensures Filter(xs, keep) == []
  {
    var r := Filter(xs, keep);
    if r != [] {
      var k :| 0 <= k < |xs| && xs[k] == r[0];
    }
  }

  /** A second, stricter filter sees through the first. */
  lemma {:induction false} FilterOfFilter<T>(xs: seq<T>, first: T -> bool, second: T -> bool)
    requires forall i :: 0 <= i < |xs| && second(xs[i]) ==> first(xs[i])
    ensures Filter(Filter(xs, first), second) == Filter(xs, second)
    decreases |xs|
  {
    if xs != [] {
      var p := xs[..|xs| - 1];
      var x := xs[|xs| - 1];
      FilterOfFilter(p, first, second);
      if first(x) {
        FilterConcat(Filter(p, first), [x], second);
        assert Filter([x], second) == (if second(x) then [x] else []) by {
          assert [x][..0] == [];
        }
      }
    }
  }
}
