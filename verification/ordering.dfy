/**
 * Ordering of (item, score) pairs by ascending score with a stable sort, as both the
 * priority computation (`list.sort(key=...)`) and the write-back (`sorted(key=...)`) do.
 * The sort is specified by insertion; any stable sort gives the same list.
 */
module Ordering {

  predicate SortedByScore<T>(xs: seq<(T, real)>) {
    forall i, j :: 0 <= i < j < |xs| ==> xs[i].1 <= xs[j].1
  }

  /** The elements of `xs` whose score is `v`, in their order in `xs`. */
  function WithScore<T>(xs: seq<(T, real)>, v: real): seq<(T, real)> {
    if xs == [] then []
    else (if xs[0].1 == v then [xs[0]] else []) + WithScore(xs[1..], v)
  }

  /** Puts `x` before the first element whose score is not below its own. */
  function InsertByScore<T>(x: (T, real), ys: seq<(T, real)>): seq<(T, real)> {
    if ys == [] then [x]
    else if x.1 <= ys[0].1 then [x] + ys
    else [ys[0]] + InsertByScore(x, ys[1..])
  }

  /** Stable ascending sort by score. */
  function SortByScore<T>(xs: seq<(T, real)>): seq<(T, real)> {
    if xs == [] then [] else InsertByScore(xs[0], SortByScore(xs[1..]))
  }

  lemma {:induction false} InsertByScorePermutes<T>(x: (T, real), ys: seq<(T, real)>)
    ensures multiset(InsertByScore(x, ys)) == multiset(ys) + multiset{x}
  {
    if ys != [] && x.1 > ys[0].1 {
      InsertByScorePermutes(x, ys[1..]);
      assert ys == [ys[0]] + ys[1..];
    }
  }

  lemma TailSorted<T>(ys: seq<(T, real)>)
    requires SortedByScore(ys) && ys != []
    ensures SortedByScore(ys[1..])
  {
    var tail := ys[1..];
    forall i, j | 0 <= i < j < |tail| ensures tail[i].1 <= tail[j].1 {
      assert tail[i] == ys[i + 1] && tail[j] == ys[j + 1];
    }
  }

  lemma {:induction false} InsertByScoreSorted<T>(x: (T, real), ys: seq<(T, real)>)
    requires SortedByScore(ys)
    ensures SortedByScore(InsertByScore(x, ys))
  {
    var r := InsertByScore(x, ys);
    if ys == [] {
    } else if x.1 <= ys[0].1 {
      assert r == [x] + ys;
      forall i, j | 0 <= i < j < |r| ensures r[i].1 <= r[j].1 {
        assert r[j] == ys[j - 1];
        if i > 0 {
          assert r[i] == ys[i - 1];
        } else {
          assert ys[0].1 <= ys[j - 1].1;
        }
      }
    } else {
      var tail := ys[1..];
      TailSorted(ys);
      InsertByScoreSorted(x, tail);
      InsertByScorePermutes(x, tail);
      var rest := InsertByScore(x, tail);
      assert r == [ys[0]] + rest;
      forall i, j | 0 <= i < j < |r| ensures r[i].1 <= r[j].1 {
        assert r[j] == rest[j - 1];
        if i > 0 {
          assert r[i] == rest[i - 1];
        } else {
          assert r[j] in multiset(tail) + multiset{x};
          if r[j] != x {
            assert r[j] in tail;
            var k :| 0 <= k < |tail| && tail[k] == r[j];
            assert ys[k + 1] == r[j];
          }
        }
      }
    }
  }

  lemma {:induction false} InsertByScoreWithScore<T>(x: (T, real), ys: seq<(T, real)>, v: real)
    ensures WithScore(InsertByScore(x, ys), v) == (if x.1 == v then [x] else []) + WithScore(ys, v)
  {
    var r := InsertByScore(x, ys);
    if ys == [] {
      assert r[1..] == [];
    } else if x.1 <= ys[0].1 {
      assert r[1..] == ys;
    } else {
      var rest := InsertByScore(x, ys[1..]);
      InsertByScoreWithScore(x, ys[1..], v);
      assert r[1..] == rest;
    }
  }

  /** The sort yields an ascending list. */
  lemma {:induction false} SortByScoreSorted<T>(xs: seq<(T, real)>)
    ensures SortedByScore(SortByScore(xs))
    ensures multiset(SortByScore(xs)) == multiset(xs)
    ensures forall v :: WithScore(SortByScore(xs), v) == WithScore(xs, v)
  {
    if xs != [] {
      SortByScoreSorted(xs[1..]);
      InsertByScoreSorted(xs[0], SortByScore(xs[1..]));
      InsertByScorePermutes(xs[0], SortByScore(xs[1..]));
      assert xs == [xs[0]] + xs[1..];
      forall v ensures WithScore(SortByScore(xs), v) == WithScore(xs, v) {
        InsertByScoreWithScore(xs[0], SortByScore(xs[1..]), v);
      }
    }
  }

  /** Sorting a list that is already in ascending order leaves it as it is. */
  lemma {:induction false} SortByScoreIdempotent<T>(xs: seq<(T, real)>)
    requires SortedByScore(xs)
    ensures SortByScore(xs) == xs
  {
    if xs != [] {
      var tail := xs[1..];
      TailSorted(xs);
      SortByScoreIdempotent(tail);
      if tail != [] {
        assert xs[0].1 <= tail[0].1;
      }
      assert xs == [xs[0]] + tail;
    }
  }
}
