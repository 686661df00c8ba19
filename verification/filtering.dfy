/** `Array.prototype.filter` and the facts the list views rely on. */
module Filtering {
  import opened Sorting


  /** `s.filter(p)` */
  function Filter<T(!new)>(s: seq<T>, p: T -> bool): (r: seq<T>)
    ensures |r| <= |s|
    ensures forall i :: 0 <= i < |r| ==> p(r[i])
    ensures forall x :: multiset(r)[x] == (if p(x) then multiset(s)[x] else 0)
  {
    if s == [] then []
    else
      assert s == [s[0]] + s[1..];
      var rest := Filter(s[1..], p);
      if p(s[0]) then [s[0]] + rest else rest
  }

  /** Filtering keeps order: the kept part of `a + b` is the kept part of `a`, then that of `b`. */
  lemma {:induction false} FilterAppend<T(!new)>(a: seq<T>, b: seq<T>, p: T -> bool)
    ensures Filter(a + b, p) == Filter(a, p) + Filter(b, p)
    decreases |a|
  {
    if a == [] {
      assert a + b == b;
    } else {
      assert (a + b)[0] == a[0];
      assert (a + b)[1..] == a[1..] + b;
      FilterAppend(a[1..], b, p);
    }
  }

  /** An element is kept exactly when it occurs in `s` and passes `p`. */
  lemma FilterMembers<T(!new)>(s: seq<T>, p: T -> bool)
    ensures forall x :: x in Filter(s, p) <==> x in s && p(x)
  {
    forall x ensures x in Filter(s, p) <==> x in s && p(x) {
      assert x in Filter(s, p) <==> x in multiset(Filter(s, p));
      assert x in s <==> x in multiset(s);
    }
  }

  /** Every element of `s` that passes `p` is kept. */
  lemma FilterKeeps<T(!new)>(s: seq<T>, p: T -> bool, i: nat)
    requires i < |s| && p(s[i])
    ensures s[i] in Filter(s, p)
  {
    assert s[i] in multiset(s);
    assert multiset(Filter(s, p))[s[i]] > 0;
  }

  /** Filtering by `p` then `q` is filtering by `q` then `p`. */
  lemma {:induction false} FilterCommutes<T(!new)>(s: seq<T>, p: T -> bool, q: T -> bool)
    ensures Filter(Filter(s, p), q) == Filter(Filter(s, q), p)
    decreases |s|
  {
    if s != [] {
      FilterCommutes(s[1..], p, q);
      var fp, fq := Filter(s[1..], p), Filter(s[1..], q);
      if p(s[0]) {
        assert Filter(s, p) == [s[0]] + fp;
        assert Filter([s[0]] + fp, q) == (if q(s[0]) then [s[0]] else []) + Filter(fp, q) by {
          assert ([s[0]] + fp)[1..] == fp;
        }
      }
      if q(s[0]) {
        assert Filter(s, q) == [s[0]] + fq;
        assert Filter([s[0]] + fq, p) == (if p(s[0]) then [s[0]] else []) + Filter(fq, p) by {
          assert ([s[0]] + fq)[1..] == fq;
        }
      }
    }
  }

  /** A filter that every element passes changes nothing. */
  lemma {:induction false} FilterAll<T(!new)>(s: seq<T>, p: T -> bool)
    requires forall i :: 0 <= i < |s| ==> p(s[i])
    ensures Filter(s, p) == s
    decreases |s|
  {
    if s != [] {
      FilterAll(s[1..], p);
      assert s == [s[0]] + s[1..];
    }
  }

  /** Filtering keeps relative order: whatever held between earlier and later elements still holds. */
  lemma {:induction false} FilterKeepsOrder<T(!new)>(s: seq<T>, p: T -> bool, before: (T, T) -> bool)
    requires Sorted(s, before)
    ensures Sorted(Filter(s, p), before)
    decreases |s|
  {
    if s != [] {
      var tail := s[1..];
      assert Sorted(tail, before) by {
        forall i, j | 0 <= i < j < |tail| ensures before(tail[i], tail[j]) {
          assert tail[i] == s[i + 1] && tail[j] == s[j + 1];
        }
      }
      FilterKeepsOrder(tail, p, before);
      var rest := Filter(tail, p);
      if p(s[0]) {
        forall k | 0 <= k < |rest| ensures before(s[0], rest[k]) {
          FilterFrom(tail, p, rest[k]);
          var m :| 0 <= m < |tail| && tail[m] == rest[k];
          assert tail[m] == s[m + 1];
        }
        ConsSorted(s[0], rest, before);
      } else {
        assert Filter(s, p) == rest;
      }
    }
  }

  lemma FilterFrom<T(!new)>(s: seq<T>, p: T -> bool, x: T)
    requires x in Filter(s, p)
    ensures exists m :: 0 <= m < |s| && s[m] == x
  {
    assert x in multiset(Filter(s, p));
    assert x in multiset(s);
  }

  lemma ConsSorted<T>(x: T, rest: seq<T>, before: (T, T) -> bool)
    requires Sorted(rest, before)
    requires forall k :: 0 <= k < |rest| ==> before(x, rest[k])
    ensures Sorted([x] + rest, before)
  {
    var r := [x] + rest;
    forall i, j | 0 <= i < j < |r| ensures before(r[i], r[j]) {
      assert r[j] == rest[j - 1];
      if i > 0 { assert r[i] == rest[i - 1]; }
    }
  }
}
