/** The fusion steps after normalisation: an absolute or relative score
    floor, the stable descending sort by score, and the final `[:limit]`. */
module Ranking {
  import opened Outcomes
  import opened Schema

  predicate SortedDesc(s: seq<ResultItem>) {
    forall i, j :: 0 <= i < j < |s| ==> s[i].score >= s[j].score
  }

  /** `[r for r in s if r.score > floor]` */
  function AboveFloor(s: seq<ResultItem>, floor: real): (r: seq<ResultItem>)
    ensures |r| <= |s|
    ensures forall x :: x in r <==> x in s && x.score > floor
  {
    if s == [] then []
    else (if s[0].score > floor then [s[0]] else []) + AboveFloor(s[1..], floor)
  }

  /** The floor is applied item by item: filtering a concatenation is
      concatenating the filtered parts, so the kept items stay in order. */
  lemma {:induction false} AboveFloorAppend(a: seq<ResultItem>, b: seq<ResultItem>, floor: real)
    ensures AboveFloor(a + b, floor) == AboveFloor(a, floor) + AboveFloor(b, floor)
  {
    if a == [] {
      assert a + b == b;
    } else {
      var head := if a[0].score > floor then [a[0]] else [];
      TailOfAppend(a, b);
      AboveFloorAppend(a[1..], b, floor);
      Regroup(AboveFloor(a + b, floor), head, AboveFloor(a[1..] + b, floor),
              AboveFloor(a[1..], floor), AboveFloor(b, floor), AboveFloor(a, floor));
    }
  }

  lemma TailOfAppend<T>(a: seq<T>, b: seq<T>)
    requires a != []
    ensures a + b != [] && (a + b)[0] == a[0] && (a + b)[1..] == a[1..] + b
  {
  }

  /** l = h + (x + y) and r = h + x give l = r + y. */
  lemma Regroup<T>(l: seq<T>, h: seq<T>, m: seq<T>, x: seq<T>, y: seq<T>, r: seq<T>)
    requires l == h + m && m == x + y && r == h + x
    ensures l == r + y
  {
  }

  /** The items of `s` whose score is exactly `v`, in their order in `s`. */
  function WithScore(s: seq<ResultItem>, v: real): seq<ResultItem> {
    if s == [] then []
    else (if s[0].score == v then [s[0]] else []) + WithScore(s[1..], v)
  }

  lemma {:induction false} WithScoreAppend(a: seq<ResultItem>, b: seq<ResultItem>, v: real)
    ensures WithScore(a + b, v) == WithScore(a, v) + WithScore(b, v)
  {
    if a == [] {
      assert a + b == b;
    } else {
      var head := if a[0].score == v then [a[0]] else [];
      assert (a + b)[0] == a[0];
      assert (a + b)[1..] == a[1..] + b;
      assert WithScore(a + b, v) == head + WithScore(a[1..] + b, v);
      WithScoreAppend(a[1..], b, v);
      assert WithScore(a, v) == head + WithScore(a[1..], v);
    }
  }

  lemma {:induction false} WithScorePrefix(a: seq<ResultItem>, b: seq<ResultItem>, v: real)
    requires a <= b
    ensures WithScore(a, v) <= WithScore(b, v)
  {
    if a != [] {
      assert a[1..] <= b[1..];
      WithScorePrefix(a[1..], b[1..], v);
    }
  }

  /** The floor keeps every tie class above it whole and in order, and drops
      every tie class below it. */
  lemma {:induction false} AboveFloorWithScore(s: seq<ResultItem>, floor: real, v: real)
    ensures WithScore(AboveFloor(s, floor), v) == if v > floor then WithScore(s, v) else []
  {
    if s != [] {
      AboveFloorWithScore(s[1..], floor, v);
      WithScoreAppend(if s[0].score > floor then [s[0]] else [], AboveFloor(s[1..], floor), v);
    }
  }

  /** Inserts `x` before the first item that does not score above it. */
  function Insert(x: ResultItem, t: seq<ResultItem>): seq<ResultItem> {
    if t == [] || t[0].score <= x.score then [x] + t
    else [t[0]] + Insert(x, t[1..])
  }

  /** Stable sort by descending score: each item goes after every later item
      that scores strictly higher and before the others. */
  function SortDesc(s: seq<ResultItem>): seq<ResultItem> {
    if s == [] then [] else Insert(s[0], SortDesc(s[1..]))
  }

  lemma {:induction false} InsertSorted(x: ResultItem, t: seq<ResultItem>)
    requires SortedDesc(t)
    ensures SortedDesc(Insert(x, t))
    ensures Insert(x, t) != [] && (Insert(x, t)[0] == x || Insert(x, t)[0] == t[0])
  {
    if t != [] && t[0].score > x.score {
      var rest := Insert(x, t[1..]);
      assert SortedDesc(t[1..]);
      InsertSorted(x, t[1..]);
      InsertMultiset(x, t[1..]);
      forall y | y in rest ensures y.score <= t[0].score {
        assert y in multiset([x] + t[1..]);
        if y != x {
          var k :| 0 <= k < |t[1..]| && t[1..][k] == y;
          assert t[k + 1] == y;
        }
      }
      ConsSorted(t[0], rest);
    } else if t != [] {
      forall y | y in t ensures y.score <= x.score {
        var k :| 0 <= k < |t| && t[k] == y;
        assert t[0].score >= t[k].score;
      }
      ConsSorted(x, t);
    }
  }

  /** A head that scores at least as much as every item of a sorted tail
      gives a sorted list. */
  lemma ConsSorted(h: ResultItem, rest: seq<ResultItem>)
    requires SortedDesc(rest)
    requires forall y :: y in rest ==> y.score <= h.score
    ensures SortedDesc([h] + rest)
  {
    var r := [h] + rest;
    forall i, j | 0 <= i < j < |r| ensures r[i].score >= r[j].score {
      assert r[j] == rest[j - 1];
      if i == 0 {
        assert r[j] in rest;
      } else {
        assert r[i] == rest[i - 1];
      }
    }
  }

  lemma {:induction false} InsertMultiset(x: ResultItem, t: seq<ResultItem>)
    ensures multiset(Insert(x, t)) == multiset([x] + t)
  {
    if t != [] && t[0].score > x.score {
      InsertMultiset(x, t[1..]);
      assert t == [t[0]] + t[1..];
    }
  }

  /** Inserting never reorders an existing tie class, and `x` goes in front
      of the items that tie with it. */
  lemma {:induction false} InsertWithScore(x: ResultItem, t: seq<ResultItem>, v: real)
    ensures WithScore(Insert(x, t), v) == WithScore([x] + t, v)
  {
    if t != [] && t[0].score > x.score {
      InsertWithScore(x, t[1..], v);
      assert ([x] + t)[1..] == t;
      assert ([x] + t[1..])[1..] == t[1..];
      assert ([t[0]] + Insert(x, t[1..]))[1..] == Insert(x, t[1..]);
    }
  }

  /** The sort yields a list ordered by non-increasing score. */
  lemma {:induction false} SortDescSorted(s: seq<ResultItem>)
    ensures SortedDesc(SortDesc(s))
  {
    if s != [] {
      SortDescSorted(s[1..]);
      InsertSorted(s[0], SortDesc(s[1..]));
    }
  }

  /** The sort is a permutation. */
  lemma {:induction false} SortDescPermutation(s: seq<ResultItem>)
    ensures multiset(SortDesc(s)) == multiset(s)
    ensures |SortDesc(s)| == |s|
  {
    if s != [] {
      SortDescPermutation(s[1..]);
      InsertMultiset(s[0], SortDesc(s[1..]));
      assert s == [s[0]] + s[1..];
    }
    assert |multiset(SortDesc(s))| == |multiset(s)|;
  }

  /** The sort is stable: items with equal scores keep their relative order. */
  lemma {:induction false} SortDescStable(s: seq<ResultItem>, v: real)
    ensures WithScore(SortDesc(s), v) == WithScore(s, v)
  {
    if s != [] {
      SortDescStable(s[1..], v);
      InsertWithScore(s[0], SortDesc(s[1..]), v);
      WithScoreAppend([s[0]], SortDesc(s[1..]), v);
      WithScoreAppend([s[0]], s[1..], v);
      assert s == [s[0]] + s[1..];
    }
  }

  /** Length of Python's `s[:limit]`: a negative limit counts from the end. */
  function SliceLength(n: nat, limit: int): (k: nat)
    ensures k <= n
    ensures limit >= 0 ==> k == Min(limit, n)
    ensures limit < 0 ==> k == Max(0, n + limit)
  {
    if limit >= 0 then Min(limit, n) else Max(0, n + limit)
  }

  /** `s[:limit]` */
  function Take(s: seq<ResultItem>, limit: int): (r: seq<ResultItem>)
    ensures r <= s
    ensures |r| == SliceLength(|s|, limit)
  {
    s[..SliceLength(|s|, limit)]
  }

  /** A prefix of a sorted list is sorted, and of each tie class it keeps a
      prefix. */
  lemma TakeKeepsOrder(s: seq<ResultItem>, limit: int, v: real)
    requires SortedDesc(s)
    ensures SortedDesc(Take(s, limit))
    ensures WithScore(Take(s, limit), v) <= WithScore(s, v)
  {
    WithScorePrefix(Take(s, limit), s, v);
  }

  /** Where `x` goes into `t`: after the first `k` items, which all score
      above it. */
  lemma {:induction false} InsertAt(x: ResultItem, t: seq<ResultItem>, k: nat)
    requires k <= |t|
    requires forall q :: 0 <= q < k ==> t[q].score > x.score
    requires k == |t| || t[k].score <= x.score
    ensures Insert(x, t) == t[..k] + [x] + t[k..]
  {
    if k > 0 {
      assert t[0].score > x.score;
      assert Insert(x, t) == [t[0]] + Insert(x, t[1..]);
      InsertAt(x, t[1..], k - 1);
      assert t[..k] == [t[0]] + t[1..][..k - 1];
      assert t[k..] == t[1..][k - 1..];
    } else {
      assert t[..0] + [x] + t[0..] == [x] + t;
    }
  }

  /** The inner loop of one step: the items after `i` that score above `x`
      shift one place left, and `j` is the hole left behind them. */
  method ShiftHigher(a: array<ResultItem>, i: nat, x: ResultItem) returns (j: nat)
    requires i < a.Length
    modifies a
    ensures i <= j < a.Length
    ensures a[..i] == old(a[..i])
    ensures a[i..j] == old(a[i + 1..j + 1])
    ensures a[j + 1..] == old(a[j + 1..])
    ensures forall q :: i < q <= j ==> old(a[q]).score > x.score
    ensures j + 1 == a.Length || a[j + 1].score <= x.score
  {
    j := i;
    while j + 1 < a.Length && a[j + 1].score > x.score
      invariant i <= j < a.Length
      invariant a[..i] == old(a[..i])
      invariant a[i..j] == old(a[i + 1..j + 1])
      invariant a[j + 1..] == old(a[j + 1..])
      invariant forall q :: i < q <= j ==> old(a[q]).score > x.score
    {
      a[j] := a[j + 1];
      assert a[i..j + 1] == a[i..j] + [a[j]];
      j := j + 1;
    }
  }

  /** One step of the sort: the item at `i` moves right past the items of
      the suffix that score above it, which shift one place left. */
  method InsertStep(a: array<ResultItem>, i: nat)
    requires i < a.Length
    modifies a
    ensures a[..i] == old(a[..i])
    ensures a[i..] == Insert(old(a[i]), old(a[i + 1..]))
  {
    var x := a[i];
    ghost var t := a[i + 1..];
    var j := ShiftHigher(a, i, x);
    ghost var shifted := a[..];
    a[j] := x;
    assert a[..] == shifted[j := x];
    FillHole(shifted, i, j, x, t);
    InsertAt(x, t, j - i);
  }

  /** Writing `x` into the hole at `j` of a shifted slice yields the slice
      with `x` inserted after its first `j - i` items. */
  lemma FillHole(s: seq<ResultItem>, i: nat, j: nat, x: ResultItem, t: seq<ResultItem>)
    requires i <= j < |s| && |t| == |s| - i - 1
    requires s[i..j] == t[..j - i] && s[j + 1..] == t[j - i..]
    ensures s[j := x][..i] == s[..i]
    ensures s[j := x][i..] == t[..j - i] + [x] + t[j - i..]
  {
    assert s[j := x][i..] == s[i..j] + [x] + s[j + 1..];
  }

  /** `list.sort(key=score, reverse=True)` in place, as an insertion sort that
      grows a sorted suffix one item at a time. */
  method SortByScoreDesc(a: array<ResultItem>)
    modifies a
    ensures a[..] == SortDesc(old(a[..]))
  {
    var i := a.Length;
    while i > 0
      invariant 0 <= i <= a.Length
      invariant a[..i] == old(a[..])[..i]
      invariant a[i..] == SortDesc(old(a[..])[i..])
    {
      i := i - 1;
      assert old(a[..])[i..][1..] == old(a[..])[i + 1..];
      InsertStep(a, i);
    }
    assert a[..] == a[0..];
  }
}
