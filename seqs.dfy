/** Sequence operations behind the views' `Array.prototype` calls:
    `filter`, `reduce` of a sum, `findIndex` and a stable `sort` by a
    numeric key. */
module Seqs {

  /** r keeps some of the elements of s, in their original order. */
  ghost predicate IsSubsequence<T>(r: seq<T>, s: seq<T>)
    decreases |s|
  {
    r == [] ||
    (s != [] &&
     ((r[0] == s[0] && IsSubsequence(r[1..], s[1..])) || IsSubsequence(r, s[1..])))
  }

  lemma {:induction false} SubsequenceRefl<T>(s: seq<T>)
    ensures IsSubsequence(s, s)
  {
    if s != [] {
      SubsequenceRefl(s[1..]);
    }
  }

  /** `s.filter(keep)` */
  function Filter<T>(s: seq<T>, keep: T -> bool): (r: seq<T>)
    ensures |r| <= |s|
    ensures forall x :: x in r ==> x in s && keep(x)
    ensures forall x :: x in s && keep(x) ==> x in r
    ensures forall i :: 0 <= i < |r| ==> keep(r[i])
    ensures IsSubsequence(r, s)
  {
    if s == [] then []
    else if keep(s[0]) then [s[0]] + Filter(s[1..], keep)
    else Filter(s[1..], keep)
  }

  /** The filter keeps every copy of a kept element and no copy of a dropped
      one: a value occurs in the result exactly as often as in the input
      when it passes the test, and not at all otherwise. */
  lemma {:induction false} FilterCountOf<T>(s: seq<T>, keep: T -> bool, x: T)
    ensures multiset(Filter(s, keep))[x] == if keep(x) then multiset(s)[x] else 0
  {
    if s != [] {
      FilterCountOf(s[1..], keep, x);
      assert s == [s[0]] + s[1..];
      if keep(s[0]) {
        assert Filter(s, keep) == [s[0]] + Filter(s[1..], keep);
      }
    }
  }

  /** The same count for every element of the input, and the result as a
      sub-multiset of the input. */
  lemma FilterCount<T>(s: seq<T>, keep: T -> bool)
    ensures multiset(Filter(s, keep)) <= multiset(s)
    ensures forall i :: 0 <= i < |s| ==>
              multiset(Filter(s, keep))[s[i]] == if keep(s[i]) then multiset(s)[s[i]] else 0
  {
    forall x {
      FilterCountOf(s, keep, x);
    }
  }

  lemma {:induction false} FilterAppend<T>(a: seq<T>, b: seq<T>, keep: T -> bool)
    ensures Filter(a + b, keep) == Filter(a, keep) + Filter(b, keep)
  {
    if a == [] {
      assert a + b == b;
    } else {
      assert (a + b)[0] == a[0];
      assert (a + b)[1..] == a[1..] + b;
      FilterAppend(a[1..], b, keep);
    }
  }

  /** A filter that keeps everything returns its input. */
  lemma {:induction false} FilterAll<T>(s: seq<T>, keep: T -> bool)
    requires forall x :: x in s ==> keep(x)
    ensures Filter(s, keep) == s
  {
    if s != [] {
      FilterAll(s[1..], keep);
    }
  }

  /** Filtering with a weaker condition keeps a superset, in the same order. */
  lemma {:induction false} FilterWeaker<T>(s: seq<T>, strong: T -> bool, weak: T -> bool)
    requires forall x :: x in s && strong(x) ==> weak(x)
    ensures IsSubsequence(Filter(s, strong), Filter(s, weak))
  {
    if s != [] {
      FilterWeaker(s[1..], strong, weak);
      var fs, fw := Filter(s[1..], strong), Filter(s[1..], weak);
      if strong(s[0]) {
        assert Filter(s, strong) == [s[0]] + fs;
        assert Filter(s, weak) == [s[0]] + fw;
        assert ([s[0]] + fs)[1..] == fs;
        assert ([s[0]] + fw)[1..] == fw;
      } else if weak(s[0]) {
        assert Filter(s, weak) == [s[0]] + fw;
        assert ([s[0]] + fw)[1..] == fw;
      }
    }
  }

  /** `s.reduce((sum, x) => sum + f(x), 0)`: the sum starts from 0, so no
      terms give 0 and a single term gives that term. */
  function SumBy<T>(s: seq<T>, f: T -> int): (r: int)
    ensures s == [] ==> r == 0
    ensures |s| == 1 ==> r == f(s[0])
  {
    if s == [] then 0 else SumBy(s[..|s| - 1], f) + f(s[|s| - 1])
  }

  /** A sum of non-negative terms is non-negative and at least each term. */
  lemma {:induction false} SumByNonNegative<T>(s: seq<T>, f: T -> int)
    ensures (forall i :: 0 <= i < |s| ==> f(s[i]) >= 0) ==>
              SumBy(s, f) >= 0 && forall k :: 0 <= k < |s| ==> f(s[k]) <= SumBy(s, f)
  {
    if s != [] && forall i :: 0 <= i < |s| ==> f(s[i]) >= 0 {
      var init := s[..|s| - 1];
      SumByNonNegative(init, f);
      assert forall k :: 0 <= k < |init| ==> init[k] == s[k];
    }
  }

  lemma {:induction false} SumByAppend<T>(a: seq<T>, b: seq<T>, f: T -> int)
    ensures SumBy(a + b, f) == SumBy(a, f) + SumBy(b, f)
  {
    if b != [] {
      assert (a + b)[..|a + b| - 1] == a + b[..|b| - 1];
      SumByAppend(a, b[..|b| - 1], f);
    } else {
      assert a + b == a;
    }
  }

  lemma SumBySnoc<T>(s: seq<T>, x: T, f: T -> int)
    ensures SumBy(s + [x], f) == SumBy(s, f) + f(x)
  {
    assert (s + [x])[..|s|] == s;
  }

  lemma SumByFirst<T>(s: seq<T>, f: T -> int)
    requires s != []
    ensures SumBy(s, f) == f(s[0]) + SumBy(s[1..], f)
  {
    assert s == [s[0]] + s[1..];
    SumByAppend([s[0]], s[1..], f);
    assert [s[0]][..0] == [];
  }

  /** Replacing one element changes the sum by the difference of the two. */
  lemma SumByUpdate<T>(s: seq<T>, j: nat, x: T, f: T -> int)
    requires j < |s|
    ensures SumBy(s[j := x], f) == SumBy(s, f) - f(s[j]) + f(x)
  {
    assert s == s[..j] + [s[j]] + s[j + 1..];
    assert s[j := x] == s[..j] + [x] + s[j + 1..];
    SumByAppend(s[..j] + [s[j]], s[j + 1..], f);
    SumByAppend(s[..j] + [x], s[j + 1..], f);
    SumByAppend(s[..j], [s[j]], f);
    SumByAppend(s[..j], [x], f);
    assert [s[j]][..0] == [] && [x][..0] == [];
  }

  /** A sum splits at any cut. */
  lemma SumByCut<T>(s: seq<T>, k: nat, f: T -> int)
    requires k <= |s|
    ensures SumBy(s, f) == SumBy(s[..k], f) + SumBy(s[k..], f)
  {
    assert s == s[..k] + s[k..];
    SumByAppend(s[..k], s[k..], f);
  }

  lemma SumByPrefixStep<T>(s: seq<T>, j: nat, f: T -> int)
    requires j < |s|
    ensures SumBy(s[..j + 1], f) == SumBy(s[..j], f) + f(s[j])
  {
    assert s[..j + 1][..j] == s[..j];
  }

  /** Taking one element out of the middle of a sum. */
  lemma SumBySplit<T>(s: seq<T>, j: nat, f: T -> int)
    requires j < |s|
    ensures SumBy(s, f) == SumBy(s[..j] + s[j + 1..], f) + f(s[j])
  {
    SumByCut(s, j + 1, f);
    SumByPrefixStep(s, j, f);
    SumByAppend(s[..j], s[j + 1..], f);
  }

  /** Taking one occurrence of x out of a sequence. */
  lemma RemoveOne<T>(b: seq<T>, x: T) returns (j: nat)
    requires x in multiset(b)
    ensures j < |b| && b[j] == x
    ensures multiset(b[..j] + b[j + 1..]) == multiset(b) - multiset{x}
  {
    j :| 0 <= j < |b| && b[j] == x;
    assert b == b[..j] + [x] + b[j + 1..];
    assert multiset(b) == multiset(b[..j]) + multiset{x} + multiset(b[j + 1..]);
  }

  /** A sum does not depend on the order of its terms. */
  lemma {:induction false} SumByPerm<T>(a: seq<T>, b: seq<T>, f: T -> int)
    requires multiset(a) == multiset(b)
    ensures SumBy(a, f) == SumBy(b, f)
    decreases |a|
  {
    if a == [] {
      assert |b| == |multiset(b)| == 0;
    } else {
      var x := a[0];
      var j := RemoveOne(b, x);
      assert a == [x] + a[1..];
      assert multiset(a[1..]) == multiset(a) - multiset{x};
      SumByPerm(a[1..], b[..j] + b[j + 1..], f);
      SumByFirst(a, f);
      SumBySplit(b, j, f);
    }
  }

  /** `s.findIndex(p)`: the first index satisfying p, or -1. */
  function FindIndex<T>(s: seq<T>, p: T -> bool): (r: int)
    ensures -1 <= r < |s|
    ensures r == -1 <==> forall i :: 0 <= i < |s| ==> !p(s[i])
    ensures r >= 0 ==> p(s[r]) && forall i :: 0 <= i < r ==> !p(s[i])
  {
    if s == [] then -1
    else if p(s[0]) then 0
    else
      var k := FindIndex(s[1..], p);
      if k == -1 then -1 else k + 1
  }

  ghost predicate SortedBy<T>(s: seq<T>, key: T -> int)
  {
    forall i, j :: 0 <= i < j < |s| ==> key(s[i]) <= key(s[j])
  }

  ghost predicate DistinctKeys<T>(s: seq<T>, key: T -> int)
  {
    forall i, j :: 0 <= i < j < |s| ==> key(s[i]) != key(s[j])
  }

  /** Every element of the sequence is x or an element of s. */
  lemma MembersFrom<T>(t: seq<T>, s: seq<T>, x: T)
    requires multiset(t) == multiset(s) + multiset{x}
    ensures forall y :: y in t ==> y == x || y in s
  {
    forall y | y in t ensures y == x || y in s {
      assert y in multiset(t);
    }
  }

  lemma SortedCons<T>(h: T, t: seq<T>, key: T -> int)
    requires SortedBy(t, key)
    requires forall y :: y in t ==> key(h) <= key(y)
    ensures SortedBy([h] + t, key)
  {
    var r := [h] + t;
    forall i, j | 0 <= i < j < |r| ensures key(r[i]) <= key(r[j]) {
      if i == 0 {
        assert r[j] == t[j - 1];
      } else {
        assert r[i] == t[i - 1] && r[j] == t[j - 1];
      }
    }
  }

  function InsertByKey<T>(x: T, s: seq<T>, key: T -> int): (r: seq<T>)
    requires SortedBy(s, key)
    ensures SortedBy(r, key)
    ensures multiset(r) == multiset(s) + multiset{x}
    ensures |r| == |s| + 1
  {
    if s == [] || key(x) <= key(s[0]) then
      SortedCons(x, s, key);
      [x] + s
    else
      var t := InsertByKey(x, s[1..], key);
      MembersFrom(t, s[1..], x);
      SortedCons(s[0], t, key);
      assert s == [s[0]] + s[1..];
      [s[0]] + t
  }

  /** `s.sort((a, b) => key(a) - key(b))`; stable, as the engines' sort is. */
  function SortByKey<T>(s: seq<T>, key: T -> int): (r: seq<T>)
    ensures SortedBy(r, key)
    ensures multiset(r) == multiset(s)
    ensures |r| == |s|
  {
    if s == [] then []
    else
      assert s == [s[0]] + s[1..];
      InsertByKey(s[0], SortByKey(s[1..], key), key)
  }

  lemma DistinctCons<T>(h: T, t: seq<T>, key: T -> int)
    requires DistinctKeys(t, key)
    requires forall y :: y in t ==> key(y) != key(h)
    ensures DistinctKeys([h] + t, key)
  {
    var r := [h] + t;
    forall i, j | 0 <= i < j < |r| ensures key(r[i]) != key(r[j]) {
      if i == 0 {
        assert r[j] == t[j - 1];
      } else {
        assert r[i] == t[i - 1] && r[j] == t[j - 1];
      }
    }
  }

  lemma DistinctHeadTail<T>(s: seq<T>, key: T -> int)
    requires s != [] && DistinctKeys(s, key)
    ensures DistinctKeys(s[1..], key)
    ensures forall y :: y in s[1..] ==> key(y) != key(s[0])
  {
    forall i, j | 0 <= i < j < |s| - 1 ensures key(s[1..][i]) != key(s[1..][j]) {
      assert s[1..][i] == s[i + 1] && s[1..][j] == s[j + 1];
    }
    forall y | y in s[1..] ensures key(y) != key(s[0]) {
      var k :| 0 <= k < |s| - 1 && s[1..][k] == y;
      assert s[k + 1] == y;
    }
  }

  lemma {:induction false} InsertKeepsDistinct<T>(x: T, s: seq<T>, key: T -> int)
    requires SortedBy(s, key) && DistinctKeys(s, key)
    requires forall y :: y in s ==> key(y) != key(x)
    ensures DistinctKeys(InsertByKey(x, s, key), key)
  {
    if s == [] || key(x) <= key(s[0]) {
      DistinctCons(x, s, key);
    } else {
      var t := InsertByKey(x, s[1..], key);
      DistinctHeadTail(s, key);
      assert forall y :: y in s[1..] ==> y in s;
      assert SortedBy(s[1..], key) by {
        forall i, j | 0 <= i < j < |s| - 1 ensures key(s[1..][i]) <= key(s[1..][j]) {
          assert s[1..][i] == s[i + 1] && s[1..][j] == s[j + 1];
        }
      }
      InsertKeepsDistinct(x, s[1..], key);
      MembersFrom(t, s[1..], x);
      assert s[0] in s;
      DistinctCons(s[0], t, key);
      assert InsertByKey(x, s, key) == [s[0]] + t;
    }
  }

  /** Sorting neither adds nor drops an element. */
  lemma SortByKeyMembers<T>(s: seq<T>, key: T -> int)
    ensures forall x :: x in SortByKey(s, key) <==> x in s
  {
    var r := SortByKey(s, key);
    forall x ensures x in r <==> x in s {
      assert x in r <==> x in multiset(r);
      assert x in s <==> x in multiset(s);
    }
  }

  /** Sorting input whose keys are distinct gives strictly increasing keys. */
  lemma {:induction false} SortKeepsDistinct<T>(s: seq<T>, key: T -> int)
    requires DistinctKeys(s, key)
    ensures DistinctKeys(SortByKey(s, key), key)
    ensures forall i, j :: 0 <= i < j < |s| ==>
              key(SortByKey(s, key)[i]) < key(SortByKey(s, key)[j])
  {
    if s != [] {
      var t := SortByKey(s[1..], key);
      DistinctHeadTail(s, key);
      SortKeepsDistinct(s[1..], key);
      assert forall y :: y in t ==> y in multiset(s[1..]);
      InsertKeepsDistinct(s[0], t, key);
    }
    var r := SortByKey(s, key);
    assert SortedBy(r, key) && DistinctKeys(r, key);
  }

  /** `Array.from(new Set(s))`: each value once, where it first occurs. */
  function Distinct<T(==)>(s: seq<T>): (r: seq<T>)
    ensures forall x :: x in r ==> x in s
    ensures forall x :: x in s ==> x in r
    ensures forall i, j :: 0 <= i < j < |r| ==> r[i] != r[j]
    ensures forall i, j, b :: 0 <= i < j < |r| && 0 <= b < |s| && s[b] == r[j] ==> r[i] in s[..b]
  {
    if s == [] then []
    else
      var init, last := s[..|s| - 1], s[|s| - 1];
      var d := Distinct(init);
      assert s == init + [last];
      assert forall b :: 0 <= b < |init| ==> s[..b] == init[..b];
      if last in d then
        assert forall i, j :: 0 <= i < j < |d| && d[j] == last ==>
          d[i] in s[..|s| - 1] by {
          forall i, j | 0 <= i < j < |d| && d[j] == last ensures d[i] in s[..|s| - 1] {
            var b :| 0 <= b < |init| && init[b] == last;
            assert d[i] in init[..b];
          }
        }
        d
      else
        var r := d + [last];
        assert forall i :: 0 <= i < |d| ==> r[i] == d[i];
        r
  }
}
