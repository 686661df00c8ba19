/**
 * The numeric comparators the list views hand to `sort`, and how the sort
 * reads them: a result that is not positive lets `a` stay before `b`, and a
 * NaN result (`Infinity - Infinity`) counts as zero.
 */
module Orderings {
  import opened Wrappers
  import opened JsNumber
  import opened Sorting

  /** A numeric sort key: a finite value, or `Infinity` standing in for a missing one. */
  datatype Key = Fin(x: real) | Infinity

  /** `v ?? missing`, with the number as its exact value. */
  function KeyOr(v: Option<Dec>, missing: Key): (k: Key)
    ensures v.Some? ==> k == Fin(Value(v.value))
    ensures v.None? ==> k == missing
  {
    if v.Some? then Fin(Value(v.value)) else missing
  }

  /** The sign of `a - b`; `Infinity - Infinity` is NaN, read as 0. */
  function Difference(a: Key, b: Key): (r: int)
    ensures -1 <= r <= 1
    ensures r == 0 <==> a == b
  {
    match (a, b)
    case (Fin(x), Fin(y)) => if x < y then -1 else if x == y then 0 else 1
    case (Fin(_), Infinity) => -1
    case (Infinity, Fin(_)) => 1
    case (Infinity, Infinity) => 0
  }

  /** Swapping the operands flips the sign, so the comparator never contradicts itself. */
  lemma DifferenceAntisymmetric(a: Key, b: Key)
    ensures Difference(a, b) == -Difference(b, a)
  {
  }

  /** `(a ?? Infinity) - (b ?? Infinity)`: the "price: low to high" comparator. */
  function AscendingMissingLast(a: Option<Dec>, b: Option<Dec>): int {
    Difference(KeyOr(a, Infinity), KeyOr(b, Infinity))
  }

  /** `(b ?? 0) - (a ?? 0)`: the "high to low" and "best score" comparator. */
  function DescendingMissingZero(a: Option<Dec>, b: Option<Dec>): int {
    Difference(KeyOr(b, Fin(0.0)), KeyOr(a, Fin(0.0)))
  }

  /** The value a missing number takes in the descending comparator. */
  function ZeroIfMissing(v: Option<Dec>): real {
    if v.Some? then Value(v.value) else 0.0
  }

  /** Ascending, missing last: a present value never follows a missing one, and present values rise. */
  lemma AscendingMissingLastMeaning(a: Option<Dec>, b: Option<Dec>)
    ensures AscendingMissingLast(a, b) <= 0 <==>
      (a.None? ==> b.None?) && (a.Some? && b.Some? ==> Value(a.value) <= Value(b.value))
  {
  }

  /** Descending with a missing value read as zero. */
  lemma DescendingMissingZeroMeaning(a: Option<Dec>, b: Option<Dec>)
    ensures DescendingMissingZero(a, b) <= 0 <==> ZeroIfMissing(b) <= ZeroIfMissing(a)
  {
  }

  /** "May precede" for a comparator: its result is not positive. */
  function NotAfter(cmp: (Option<Dec>, Option<Dec>) -> int): (Option<Dec>, Option<Dec>) -> bool {
    (a: Option<Dec>, b: Option<Dec>) => cmp(a, b) <= 0
  }

  /** Both comparators are consistent, so the sort's result is well defined. */
  lemma AscendingMissingLastPreorder()
    ensures TotalPreorder(NotAfter(AscendingMissingLast))
  {
    var le := NotAfter(AscendingMissingLast);
    forall a, b, c | le(a, b) && le(b, c)
      ensures le(a, c)
    {
      AscendingMissingLastMeaning(a, b);
      AscendingMissingLastMeaning(b, c);
      AscendingMissingLastMeaning(a, c);
    }
    forall a, b
      ensures le(a, b) || le(b, a)
    {
      AscendingMissingLastMeaning(a, b);
      AscendingMissingLastMeaning(b, a);
    }
  }

  lemma DescendingMissingZeroPreorder()
    ensures TotalPreorder(NotAfter(DescendingMissingZero))
  {
    var le := NotAfter(DescendingMissingZero);
    forall a, b, c | le(a, b) && le(b, c)
      ensures le(a, c)
    {
      DescendingMissingZeroMeaning(a, b);
      DescendingMissingZeroMeaning(b, c);
      DescendingMissingZeroMeaning(a, c);
    }
    forall a, b
      ensures le(a, b) || le(b, a)
    {
      DescendingMissingZeroMeaning(a, b);
      DescendingMissingZeroMeaning(b, a);
    }
  }

  /** Ordering items by a key keeps a total preorder on keys a total preorder on items. */
  function ByKey<T, K>(key: T -> K, le: (K, K) -> bool): (T, T) -> bool {
    (a: T, b: T) => le(key(a), key(b))
  }

  lemma ByKeyPreorder<T(!new), K(!new)>(key: T -> K, le: (K, K) -> bool)
    requires TotalPreorder(le)
    ensures TotalPreorder(ByKey(key, le))
  {
    var r := ByKey(key, le);
    forall a, b, c | r(a, b) && r(b, c)
      ensures r(a, c)
    {
      assert le(key(a), key(b)) && le(key(b), key(c));
    }
    forall a, b
      ensures r(a, b) || r(b, a)
    {
      assert le(key(a), key(b)) || le(key(b), key(a));
    }
  }
}
