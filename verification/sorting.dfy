/**
 * `Array.prototype.sort` with a consistent comparator: a stable sort. The
 * comparator is read as a "may precede" relation `le` (the comparator's
 * result is not positive); with a total preorder the sorted, stable
 * permutation is what every conforming engine returns, and insertion sort
 * is one way to compute it.
 */
module Sorting {

  /** `le` is total and transitive, so reflexive too. */
  ghost predicate TotalPreorder<T(!new)>(le: (T, T) -> bool) {
    && (forall a, b :: le(a, b) || le(b, a))
    && (forall a, b, c :: le(a, b) && le(b, c) ==> le(a, c))
  }

  predicate Sorted<T>(s: seq<T>, le: (T, T) -> bool) {
    forall i, j :: 0 <= i < j < |s| ==> le(s[i], s[j])
  }

  /** Neither element must come before the other: a tie. */
  predicate Tied<T>(le: (T, T) -> bool, a: T, b: T) {
    le(a, b) && le(b, a)
  }

  /** Places `x` after every element that may precede it. */
  function Insert<T>(s: seq<T>, x: T, le: (T, T) -> bool): (r: seq<T>)
    ensures |r| == |s| + 1
    ensures multiset(r) == multiset(s) + multiset{x}
  {
    if s == [] then [x]
    else if !le(s[0], x) then [x] + s
    else
      assert s == [s[0]] + s[1..];
      [s[0]] + Insert(s[1..], x, le)
  }

  /** Insertion sort: each element in turn inserted into the sorted prefix. */
  function SortBy<T>(s: seq<T>, le: (T, T) -> bool): (r: seq<T>)
    ensures |r| == |s|
    ensures multiset(r) == multiset(s)
  {
    if s == [] then []
    else
      assert s == s[..|s| - 1] + [s[|s| - 1]];
      Insert(SortBy(s[..|s| - 1], le), s[|s| - 1], le)
  }

  lemma {:induction false} InsertSorted<T(!new)>(s: seq<T>, x: T, le: (T, T) -> bool)
    requires TotalPreorder(le) && Sorted(s, le)
    ensures Sorted(Insert(s, x, le), le)
    decreases |s|
  {
    if s != [] {
      var r := Insert(s, x, le);
      if !le(s[0], x) {
        assert r == [x] + s;
        forall j | 0 <= j < |s|
          ensures le(x, s[j])
        {
          if j > 0 { assert le(s[0], s[j]); }
        }
      } else {
        var rest := Insert(s[1..], x, le);
        InsertSorted(s[1..], x, le);
        assert r == [s[0]] + rest;
        forall k | 0 <= k < |rest|
          ensures le(s[0], rest[k])
        {
          assert rest[k] in multiset(rest);
          if rest[k] != x {
            assert rest[k] in multiset(s[1..]);
            var j :| 0 <= j < |s[1..]| && s[1..][j] == rest[k];
            assert s[1..][j] == s[j + 1];
          }
        }
      }
    }
  }

  /** The output is ordered: no element is followed by one that must come before it. */
  lemma {:induction false} SortBySorted<T(!new)>(s: seq<T>, le: (T, T) -> bool)
    requires TotalPreorder(le)
    ensures Sorted(SortBy(s, le), le)
    decreases |s|
  {
    if s != [] {
      SortBySorted(s[..|s| - 1], le);
      InsertSorted(SortBy(s[..|s| - 1], le), s[|s| - 1], le);
    }
  }

  /** The elements of `s` tied with `c`, in their order in `s`. */
  function TiedWith<T>(s: seq<T>, c: T, le: (T, T) -> bool): (r: seq<T>)
    ensures |r| <= |s|
  {
    if s == [] then []
    else (if Tied(le, s[0], c) then [s[0]] else []) + TiedWith(s[1..], c, le)
  }

  lemma {:induction false} TiedWithAppend<T>(a: seq<T>, b: seq<T>, c: T, le: (T, T) -> bool)
    ensures TiedWith(a + b, c, le) == TiedWith(a, c, le) + TiedWith(b, c, le)
    decreases |a|
  {
    if a != [] {
      assert (a + b)[0] == a[0];
      assert (a + b)[1..] == a[1..] + b;
      TiedWithAppend(a[1..], b, c, le);
    } else {
      assert a + b == b;
    }
  }

  lemma {:induction false} TiedWithNone<T>(s: seq<T>, c: T, le: (T, T) -> bool)
    requires forall j :: 0 <= j < |s| ==> !Tied(le, s[j], c)
    ensures TiedWith(s, c, le) == []
    decreases |s|
  {
    if s != [] {
      TiedWithNone(s[1..], c, le);
    }
  }

  lemma {:induction false} InsertTiedWith<T(!new)>(s: seq<T>, x: T, c: T, le: (T, T) -> bool)
    requires TotalPreorder(le) && Sorted(s, le)
    ensures TiedWith(Insert(s, x, le), c, le) == TiedWith(s, c, le) + (if Tied(le, x, c) then [x] else [])
    decreases |s|
  {
    if s == [] {
    } else if !le(s[0], x) {
      InsertFrontTiedWith(s, x, c, le);
    } else {
      SortedTail(s, le);
      InsertTiedWith(s[1..], x, c, le);
      InsertBehindTiedWith(s, x, c, le);
    }
  }

  lemma SortedTail<T>(s: seq<T>, le: (T, T) -> bool)
    requires s != [] && Sorted(s, le)
    ensures Sorted(s[1..], le)
  {
    forall i, j | 0 <= i < j < |s[1..]| ensures le(s[1..][i], s[1..][j]) {
      assert s[1..][i] == s[i + 1] && s[1..][j] == s[j + 1];
    }
  }

  /** Inserting behind the head: the head's tie, then whatever inserting into the tail gives. */
  lemma InsertBehindTiedWith<T>(s: seq<T>, x: T, c: T, le: (T, T) -> bool)
    requires s != [] && le(s[0], x)
    requires TiedWith(Insert(s[1..], x, le), c, le) == TiedWith(s[1..], c, le) + (if Tied(le, x, c) then [x] else [])
    ensures TiedWith(Insert(s, x, le), c, le) == TiedWith(s, c, le) + (if Tied(le, x, c) then [x] else [])
  {
    var t, e := s[1..], if Tied(le, x, c) then [x] else [];
    var h := if Tied(le, s[0], c) then [s[0]] else [];
    assert TiedWith(s, c, le) == h + TiedWith(t, c, le);
    assert Insert(s, x, le) == [s[0]] + Insert(t, x, le);
    TiedWithCons(s[0], Insert(t, x, le), c, le);
    var a, b := TiedWith(t, c, le), TiedWith(s, c, le);
    assert TiedWith(Insert(s, x, le), c, le) == h + (a + e);
    AppendAssoc(h, a, e);
    assert b == h + a;
  }

  lemma AppendAssoc<T>(a: seq<T>, b: seq<T>, c: seq<T>)
    ensures a + (b + c) == (a + b) + c
  {
  }

  lemma TiedWithCons<T>(h: T, t: seq<T>, c: T, le: (T, T) -> bool)
    ensures TiedWith([h] + t, c, le) == (if Tied(le, h, c) then [h] else []) + TiedWith(t, c, le)
  {
    assert ([h] + t)[1..] == t;
  }

  /** An element inserted in front of a sorted sequence is tied with nothing in it. */
  lemma InsertFrontTiedWith<T(!new)>(s: seq<T>, x: T, c: T, le: (T, T) -> bool)
    requires TotalPreorder(le) && Sorted(s, le) && s != [] && !le(s[0], x)
    ensures TiedWith(Insert(s, x, le), c, le) == TiedWith(s, c, le) + (if Tied(le, x, c) then [x] else [])
  {
    assert Insert(s, x, le) == [x] + s;
    TiedWithCons(x, s, c, le);
    if Tied(le, x, c) {
      forall j | 0 <= j < |s|
        ensures !Tied(le, s[j], c)
      {
        assert !le(s[j], x) by {
          if j > 0 { assert le(s[0], s[j]); }
        }
      }
      TiedWithNone(s, c, le);
    }
  }

  /** Stability: for every element, the elements tied with it keep their relative order. */
  lemma {:induction false} SortByStable<T(!new)>(s: seq<T>, c: T, le: (T, T) -> bool)
    requires TotalPreorder(le)
    ensures TiedWith(SortBy(s, le), c, le) == TiedWith(s, c, le)
    decreases |s|
  {
    if s != [] {
      var init := s[..|s| - 1];
      SortByStable(init, c, le);
      SortBySorted(init, le);
      InsertTiedWith(SortBy(init, le), s[|s| - 1], c, le);
      StableStep(s, c, le);
    }
  }

  lemma StableStep<T>(s: seq<T>, c: T, le: (T, T) -> bool)
    requires s != []
    requires TiedWith(SortBy(s[..|s| - 1], le), c, le) == TiedWith(s[..|s| - 1], c, le)
    requires TiedWith(Insert(SortBy(s[..|s| - 1], le), s[|s| - 1], le), c, le)
      == TiedWith(SortBy(s[..|s| - 1], le), c, le) + (if Tied(le, s[|s| - 1], c) then [s[|s| - 1]] else [])
    ensures TiedWith(SortBy(s, le), c, le) == TiedWith(s, c, le)
  {
    var init, last := s[..|s| - 1], s[|s| - 1];
    var extra := if Tied(le, last, c) then [last] else [];
    assert SortBy(s, le) == Insert(SortBy(init, le), last, le);
    assert TiedWith(s, c, le) == TiedWith(init, c, le) + extra by {
      SplitLast(s);
      TiedWithAppend(init, [last], c, le);
      assert TiedWith([last], c, le) == extra;
    }
  }

  lemma SplitLast<T>(s: seq<T>)
    requires s != []
    ensures s == s[..|s| - 1] + [s[|s| - 1]]
  {
  }

  /** An input that is already in order, ties included, is returned as it is. */
  lemma {:induction false} InsertAtEnd<T>(s: seq<T>, x: T, le: (T, T) -> bool)
    requires forall j :: 0 <= j < |s| ==> le(s[j], x)
    ensures Insert(s, x, le) == s + [x]
    decreases |s|
  {
    if s != [] {
      InsertAtEnd(s[1..], x, le);
      assert s == [s[0]] + s[1..];
    }
  }

  lemma {:induction false} SortBySortedInput<T>(s: seq<T>, le: (T, T) -> bool)
    requires Sorted(s, le)
    ensures SortBy(s, le) == s
    decreases |s|
  {
    if s != [] {
      var init, last := s[..|s| - 1], s[|s| - 1];
      assert Sorted(init, le) by {
        forall i, j | 0 <= i < j < |init| ensures le(init[i], init[j]) {
          assert init[i] == s[i] && init[j] == s[j];
        }
      }
      SortBySortedInput(init, le);
      assert forall j :: 0 <= j < |init| ==> le(init[j], last) by {
        forall j | 0 <= j < |init| ensures le(init[j], last) {
          assert init[j] == s[j];
        }
      }
      InsertAtEnd(init, last, le);
      SplitLast(s);
      assert SortBy(s, le) == Insert(SortBy(init, le), last, le);
    }
  }
}
