/** Relations as sequences of rows, with the two relational operations the
    pipeline is built from: row selection by a predicate (pandas boolean
    selection, and `dropna`) and the left-outer equi-join (`merge(how="left")`).
 */
module Relation {
  import opened Options

  // ---------------------------------------------------------------------------
  // Selection
  // ---------------------------------------------------------------------------

  /** The rows of `s` that satisfy `p`, in their original order, duplicates kept. */
  function Filter<T(==,!new)>(s: seq<T>, p: T -> bool): (r: seq<T>)
    ensures |r| <= |s|
    ensures forall x :: x in r <==> x in s && p(x)
  {
    if |s| == 0 then []
    else
      var rest := Filter(s[1..], p);
      assert s == [s[0]] + s[1..];
      if p(s[0]) then [s[0]] + rest else rest
  }

  /** `a` can be obtained from `b` by deleting rows, keeping the rest in order. */
  predicate IsSubsequence<T(==,!new)>(a: seq<T>, b: seq<T>)
    decreases |b|
  {
    if |a| == 0 then true
    else if |b| == 0 then false
    else (a[0] == b[0] && IsSubsequence(a[1..], b[1..])) || IsSubsequence(a, b[1..])
  }

  lemma {:induction false} FilterIsSubsequence<T(!new)>(s: seq<T>, p: T -> bool)
    ensures IsSubsequence(Filter(s, p), s)
  {
    if |s| > 0 {
      FilterIsSubsequence(s[1..], p);
    }
  }

  lemma {:induction false} FilterKeepsSatisfying<T(!new)>(s: seq<T>, p: T -> bool)
    requires forall x :: x in s ==> p(x)
    ensures Filter(s, p) == s
  {
    if |s| > 0 {
      FilterKeepsSatisfying(s[1..], p);
      assert s == [s[0]] + s[1..];
    }
  }

  /** Selecting twice with the same predicate selects the same rows, in the same order, as selecting once. */
  lemma {:induction false} FilterIdempotent<T(!new)>(s: seq<T>, p: T -> bool)
    ensures Filter(Filter(s, p), p) == Filter(s, p)
  {
    FilterKeepsSatisfying(Filter(s, p), p);
  }

  /** Selection keeps every satisfying row as often as it occurs, and no other row. */
  lemma {:induction false} FilterCounts<T(!new)>(s: seq<T>, p: T -> bool)
    ensures forall x :: multiset(Filter(s, p))[x] == if p(x) then multiset(s)[x] else 0
  {
    if |s| > 0 {
      FilterCounts(s[1..], p);
      assert s == [s[0]] + s[1..];
    }
  }

  /** Selection works row by row: it distributes over concatenation. */
  lemma {:induction false} FilterAppend<T(!new)>(a: seq<T>, b: seq<T>, p: T -> bool)
    ensures Filter(a + b, p) == Filter(a, p) + Filter(b, p)
  {
    var ab := a + b;
    if |a| == 0 {
      assert ab == b;
    } else {
      assert ab[0] == a[0];
      assert ab[1..] == a[1..] + b;
      FilterAppend(a[1..], b, p);
      if p(a[0]) {
        assert Filter(ab, p) == [a[0]] + (Filter(a[1..], p) + Filter(b, p));
      } else {
        assert Filter(ab, p) == Filter(a[1..], p) + Filter(b, p);
      }
    }
  }

  // ---------------------------------------------------------------------------
  // Left-outer equi-join
  // ---------------------------------------------------------------------------

  /** The rows of `right` whose key is `k`, in their original order. */
  function Matches<R(==,!new), K(==)>(right: seq<R>, keyR: R -> K, k: K): (r: seq<R>)
    ensures forall x :: x in r <==> x in right && keyR(x) == k
  {
    Filter(right, (x: R) => keyR(x) == k)
  }

  /** No two rows of `right` share a key: joining on it is many-to-one. */
  predicate UniqueKeys<R, K(==)>(right: seq<R>, keyR: R -> K)
  {
    forall i, j :: 0 <= i < j < |right| ==> keyR(right[i]) != keyR(right[j])
  }

  /** The right side that a left-outer join may pair with a left row whose
      matches are `ms`: a missing side when there is no match, otherwise one of the matches. */
  predicate PairedWith<R(==,!new)>(ms: seq<R>, o: Option<R>)
  {
    if o.None? then ms == [] else o.value in ms
  }

  /** The single match of key `k`, if there is one (the first, if there are several). */
  function Lookup<R(==,!new), K(==)>(right: seq<R>, keyR: R -> K, k: K): (o: Option<R>)
    ensures PairedWith(Matches(right, keyR, k), o)
  {
    var ms := Matches(right, keyR, k);
    if |ms| == 0 then None else Some(ms[0])
  }

  /** The rows one left row contributes: one per match, in the order of the
      right relation, or a single row whose right side is missing. */
  function Expand<L(==,!new), R(==,!new)>(l: L, ms: seq<R>): (r: seq<(L, Option<R>)>)
    ensures |r| == if |ms| == 0 then 1 else |ms|
    ensures forall i :: 0 <= i < |r| ==> r[i].0 == l && PairedWith(ms, r[i].1)
    ensures forall o :: PairedWith(ms, o) ==> (l, o) in r
  {
    if |ms| == 0 then [(l, None)]
    else
      var r := seq(|ms|, i requires 0 <= i < |ms| => (l, Some(ms[i])));
      assert forall o :: PairedWith(ms, o) ==> (l, o) in r by {
        forall o | PairedWith(ms, o)
          ensures (l, o) in r
        {
          var i :| 0 <= i < |ms| && ms[i] == o.value;
          assert r[i] == (l, o);
        }
      }
      r
  }

  /** `left ⟕ right` on `keyL(l) == keyR(x)`: every left row, in order,
      followed by each of its matches, or by a missing right side. */
  function LeftJoin<L(==,!new), R(==,!new), K(==)>(left: seq<L>, right: seq<R>, keyL: L -> K, keyR: R -> K)
    : (r: seq<(L, Option<R>)>)
    ensures |r| >= |left|
    ensures forall i :: 0 <= i < |r| ==> r[i].0 in left && PairedWith(Matches(right, keyR, keyL(r[i].0)), r[i].1)
  {
    if |left| == 0 then []
    else
      var head := Expand(left[0], Matches(right, keyR, keyL(left[0])));
      var tail := LeftJoin(left[1..], right, keyL, keyR);
      assert forall i :: |head| <= i < |head| + |tail| ==> (head + tail)[i] == tail[i - |head|];
      head + tail
  }

  /** The number of rows a left-outer join produces: each left row counts
      once if it has no match and once per match otherwise. */
  function Fanout<L, R, K(==)>(left: seq<L>, right: seq<R>, keyL: L -> K, keyR: R -> K): nat
  {
    if |left| == 0 then 0
    else
      var n := CountKey(right, keyR, keyL(left[0]));
      (if n == 0 then 1 else n) + Fanout(left[1..], right, keyL, keyR)
  }

  /** How many rows of `right` have key `k`. */
  function CountKey<R, K(==)>(right: seq<R>, keyR: R -> K, k: K): nat
  {
    if |right| == 0 then 0
    else (if keyR(right[0]) == k then 1 else 0) + CountKey(right[1..], keyR, k)
  }

  lemma {:induction false} MatchesCount<R(!new), K>(right: seq<R>, keyR: R -> K, k: K)
    ensures |Matches(right, keyR, k)| == CountKey(right, keyR, k)
  {
    if |right| > 0 {
      MatchesCount(right[1..], keyR, k);
    }
  }

  /** Cardinality of the left-outer join: left row `l` contributes
      max(1, number of rows of `right` with key `keyL(l)`) rows. */
  lemma {:induction false} LeftJoinSize<L(!new), R(!new), K>(left: seq<L>, right: seq<R>, keyL: L -> K, keyR: R -> K)
    ensures |LeftJoin(left, right, keyL, keyR)| == Fanout(left, right, keyL, keyR)
  {
    if |left| > 0 {
      MatchesCount(right, keyR, keyL(left[0]));
      LeftJoinSize(left[1..], right, keyL, keyR);
    }
  }

  /** Left rows keep their order: the join of a concatenation is the concatenation of the joins. */
  lemma {:induction false} LeftJoinAppend<L(!new), R(!new), K>(a: seq<L>, b: seq<L>, right: seq<R>, keyL: L -> K, keyR: R -> K)
    ensures LeftJoin(a + b, right, keyL, keyR) == LeftJoin(a, right, keyL, keyR) + LeftJoin(b, right, keyL, keyR)
  {
    var ab := a + b;
    if |a| == 0 {
      assert ab == b;
    } else {
      assert ab[0] == a[0];
      assert ab[1..] == a[1..] + b;
      LeftJoinAppend(a[1..], b, right, keyL, keyR);
      var head := Expand(a[0], Matches(right, keyR, keyL(a[0])));
      assert LeftJoin(ab, right, keyL, keyR)
          == head + (LeftJoin(a[1..], right, keyL, keyR) + LeftJoin(b, right, keyL, keyR));
    }
  }

  /** Completeness of the left-outer join (the converse of its second
      postcondition): every left row appears with every one of its matches,
      and with a missing right side when it has none. */
  lemma {:induction false} LeftJoinComplete<L(!new), R(!new), K>(left: seq<L>, right: seq<R>, keyL: L -> K, keyR: R -> K)
    ensures forall l, o :: l in left && PairedWith(Matches(right, keyR, keyL(l)), o) ==> (l, o) in LeftJoin(left, right, keyL, keyR)
  {
    if |left| > 0 {
      LeftJoinComplete(left[1..], right, keyL, keyR);
      var head := Expand(left[0], Matches(right, keyR, keyL(left[0])));
      var tail := LeftJoin(left[1..], right, keyL, keyR);
      assert LeftJoin(left, right, keyL, keyR) == head + tail;
      forall l, o | l in left && PairedWith(Matches(right, keyR, keyL(l)), o)
        ensures (l, o) in head + tail
      {
        if l == left[0] {
          assert (l, o) in head;
        } else {
          assert l in left[1..];
          assert (l, o) in tail;
        }
      }
    }
  }

  /** With a unique right-hand key there is no fan-out: one output row per
      left row, in order, paired with the single match or a missing side. */
  lemma {:induction false} LeftJoinNoFanOut<L(!new), R(!new), K>(left: seq<L>, right: seq<R>, keyL: L -> K, keyR: R -> K)
    requires UniqueKeys(right, keyR)
    ensures |LeftJoin(left, right, keyL, keyR)| == |left|
    ensures forall i :: 0 <= i < |left| ==>
      LeftJoin(left, right, keyL, keyR)[i] == (left[i], Lookup(right, keyR, keyL(left[i])))
  {
    if |left| > 0 {
      AtMostOneMatch(right, keyR, keyL(left[0]));
      LeftJoinNoFanOut(left[1..], right, keyL, keyR);
      var head := Expand(left[0], Matches(right, keyR, keyL(left[0])));
      var tail := LeftJoin(left[1..], right, keyL, keyR);
      assert head == [(left[0], Lookup(right, keyR, keyL(left[0])))];
      assert forall i :: 1 <= i < |left| ==> (head + tail)[i] == tail[i - 1];
    }
  }

  /** A unique key has at most one match. */
  lemma {:induction false} AtMostOneMatch<R(!new), K>(right: seq<R>, keyR: R -> K, k: K)
    requires UniqueKeys(right, keyR)
    ensures |Matches(right, keyR, k)| <= 1
  {
    if |right| > 0 {
      var rest := right[1..];
      assert UniqueKeys(rest, keyR) by {
        forall i, j | 0 <= i < j < |rest|
          ensures keyR(rest[i]) != keyR(rest[j])
        {
          assert rest[i] == right[i + 1] && rest[j] == right[j + 1];
        }
      }
      AtMostOneMatch(rest, keyR, k);
      if keyR(right[0]) == k {
        assert forall i :: 0 <= i < |rest| ==> rest[i] == right[i + 1];
        CountKeyAbsent(rest, keyR, k);
        MatchesCount(rest, keyR, k);
      }
    }
  }

  lemma {:induction false} CountKeyAbsent<R, K>(right: seq<R>, keyR: R -> K, k: K)
    requires forall i :: 0 <= i < |right| ==> keyR(right[i]) != k
    ensures CountKey(right, keyR, k) == 0
  {
    if |right| > 0 {
      CountKeyAbsent(right[1..], keyR, k);
    }
  }

  // ---------------------------------------------------------------------------
  // Joining into a growing record
  // ---------------------------------------------------------------------------

  /** A left-outer join whose output rows are built by `attach`, which
      stores the (possibly missing) right side in the accumulated left record. */
  function LeftJoinWith<L(==,!new), R(==,!new), K(==)>(left: seq<L>, right: seq<R>, keyL: L -> K, keyR: R -> K,
                                              attach: (L, Option<R>) -> L): (r: seq<L>)
    ensures |r| >= |left|
    ensures forall y :: y in r ==>
      exists x, o :: x in left && PairedWith(Matches(right, keyR, keyL(x)), o) && y == attach(x, o)
  {
    var pairs := LeftJoin(left, right, keyL, keyR);
    var r := seq(|pairs|, i requires 0 <= i < |pairs| => attach(pairs[i].0, pairs[i].1));
    assert forall y :: y in r ==>
      exists x, o :: x in left && PairedWith(Matches(right, keyR, keyL(x)), o) && y == attach(x, o) by {
      forall y | y in r
        ensures exists x, o :: x in left && PairedWith(Matches(right, keyR, keyL(x)), o) && y == attach(x, o)
      {
        var i :| 0 <= i < |r| && r[i] == y;
        assert y == attach(pairs[i].0, pairs[i].1);
      }
    }
    r
  }

  /** Every left row is attached to each of its possible right sides somewhere in the output. */
  lemma LeftJoinWithComplete<L(!new), R(!new), K>(left: seq<L>, right: seq<R>, keyL: L -> K, keyR: R -> K,
                                                  attach: (L, Option<R>) -> L)
    ensures forall x, o :: x in left && PairedWith(Matches(right, keyR, keyL(x)), o) ==>
      attach(x, o) in LeftJoinWith(left, right, keyL, keyR, attach)
  {
    var pairs := LeftJoin(left, right, keyL, keyR);
    var r := LeftJoinWith(left, right, keyL, keyR, attach);
    LeftJoinComplete(left, right, keyL, keyR);
    forall x, o | x in left && PairedWith(Matches(right, keyR, keyL(x)), o)
      ensures attach(x, o) in r
    {
      var i :| 0 <= i < |pairs| && pairs[i] == (x, o);
      assert r[i] == attach(x, o);
    }
  }

  /** With a unique right-hand key the attaching join is a row-by-row map. */
  lemma LeftJoinWithNoFanOut<L(!new), R(!new), K>(left: seq<L>, right: seq<R>, keyL: L -> K, keyR: R -> K,
                                                  attach: (L, Option<R>) -> L)
    requires UniqueKeys(right, keyR)
    ensures |LeftJoinWith(left, right, keyL, keyR, attach)| == |left|
    ensures forall i :: 0 <= i < |left| ==>
      LeftJoinWith(left, right, keyL, keyR, attach)[i] == attach(left[i], Lookup(right, keyR, keyL(left[i])))
  {
    LeftJoinNoFanOut(left, right, keyL, keyR);
  }
}
