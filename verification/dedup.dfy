/**
 * Counter-based de-duplication shared by `uniqueKeys` (separator `_`) and
 * `uniqueSlug` (separator `-`). The JavaScript keeps the counter in a `Map`
 * captured by a closure; here the counter map is threaded explicitly.
 */
module Dedup {
  import opened Text

  /** How many times each base has been handed out so far. */
  type Counts = map<string, nat>

  function Seen(counts: Counts, base: string): nat {
    if base in counts then counts[base] else 0
  }

  /** The name given to the `k`-th occurrence of `base`: bare for the first, `base<sep>k` after. */
  function Suffixed(base: string, k: nat, sep: char): string {
    if k <= 1 then base else base + [sep] + NatText(k)
  }

  /** One call of the de-duplicating closure: the name for `base` and the updated counter. */
  function Claim(counts: Counts, base: string, sep: char): (r: (string, Counts))
    ensures Seen(r.1, base) == Seen(counts, base) + 1
    ensures forall b :: b != base ==> Seen(r.1, b) == Seen(counts, b)
    ensures r.0 == Suffixed(base, Seen(r.1, base), sep)
  {
    var count := Seen(counts, base);
    var next := count + 1;
    (if count == 0 then base else base + [sep] + NatText(next), counts[base := next])
  }

  /** The closure applied to every base in order, threading the counter. */
  function ClaimAll(counts: Counts, bases: seq<string>, sep: char): (r: (seq<string>, Counts))
    ensures |r.0| == |bases|
    decreases |bases|
  {
    if bases == [] then ([], counts)
    else
      var (first, counts') := Claim(counts, bases[0], sep);
      var (rest, final) := ClaimAll(counts', bases[1..], sep);
      ([first] + rest, final)
  }

  /** The final counter adds every occurrence of every base. */
  lemma {:induction false} ClaimAllCounts(counts: Counts, bases: seq<string>, sep: char)
    ensures forall b :: Seen(ClaimAll(counts, bases, sep).1, b) == Seen(counts, b) + multiset(bases)[b]
    decreases |bases|
  {
    if bases != [] {
      var counts' := Claim(counts, bases[0], sep).1;
      ClaimAllCounts(counts', bases[1..], sep);
      assert ClaimAll(counts, bases, sep).1 == ClaimAll(counts', bases[1..], sep).1;
      assert bases == [bases[0]] + bases[1..];
      assert multiset(bases) == multiset([bases[0]]) + multiset(bases[1..]);
    }
  }

  /**
   * The `i`-th output is `bases[i]` suffixed with the number of occurrences of
   * `bases[i]` so far, counting earlier runs recorded in `counts`.
   */
  lemma {:induction false} ClaimAllAt(counts: Counts, bases: seq<string>, sep: char, i: nat)
    requires i < |bases|
    ensures ClaimAll(counts, bases, sep).0[i]
      == Suffixed(bases[i], Seen(counts, bases[i]) + multiset(bases[..i + 1])[bases[i]], sep)
    decreases i
  {
    var counts' := Claim(counts, bases[0], sep).1;
    var rest := bases[1..];
    ClaimAllCons(counts, bases, sep);
    if i == 0 {
      ClaimFirst(counts, bases, sep);
    } else {
      ClaimAllAt(counts', rest, sep, i - 1);
      assert rest[i - 1] == bases[i];
      ShiftedCount(counts, bases, sep, i);
      var n := Seen(counts', bases[i]) + multiset(rest[..i])[bases[i]];
      assert ClaimAll(counts, bases, sep).0[i] == ClaimAll(counts', rest, sep).0[i - 1];
      assert ClaimAll(counts', rest, sep).0[i - 1] == Suffixed(bases[i], n, sep);
    }
  }

  lemma ClaimFirst(counts: Counts, bases: seq<string>, sep: char)
    requires bases != []
    ensures Claim(counts, bases[0], sep).0 == Suffixed(bases[0], Seen(counts, bases[0]) + multiset(bases[..1])[bases[0]], sep)
  {
    assert bases[..1] == [bases[0]];
  }

  lemma ClaimAllCons(counts: Counts, bases: seq<string>, sep: char)
    requires bases != []
    ensures ClaimAll(counts, bases, sep).0
      == [Claim(counts, bases[0], sep).0] + ClaimAll(Claim(counts, bases[0], sep).1, bases[1..], sep).0
  {
  }

  /** Claiming the first base moves its occurrence from the prefix into the counter. */
  lemma ShiftedCount(counts: Counts, bases: seq<string>, sep: char, i: nat)
    requires 0 < i < |bases|
    ensures Seen(Claim(counts, bases[0], sep).1, bases[i]) + multiset(bases[1..][..i])[bases[i]]
      == Seen(counts, bases[i]) + multiset(bases[..i + 1])[bases[i]]
  {
    assert bases[..i + 1] == [bases[0]] + bases[1..][..i];
    assert multiset(bases[..i + 1]) == multiset([bases[0]]) + multiset(bases[1..][..i]);
  }

  lemma ClaimAllSpec(counts: Counts, bases: seq<string>, sep: char)
    ensures forall i :: 0 <= i < |bases| ==>
      ClaimAll(counts, bases, sep).0[i]
        == Suffixed(bases[i], Seen(counts, bases[i]) + multiset(bases[..i + 1])[bases[i]], sep)
  {
    forall i | 0 <= i < |bases|
      ensures ClaimAll(counts, bases, sep).0[i]
        == Suffixed(bases[i], Seen(counts, bases[i]) + multiset(bases[..i + 1])[bases[i]], sep)
    {
      ClaimAllAt(counts, bases, sep, i);
    }
  }

  /** `uniqueKeys`: a fresh counter, separator `_`. */
  function UniqueKeys(keys: seq<string>): seq<string> {
    ClaimAll(map[], keys, '_').0
  }

  /** Occurrences of `s[i]` among `s[0..i]`, inclusive. */
  function Occurrence(s: seq<string>, i: nat): nat
    requires i < |s|
  {
    multiset(s[..i + 1])[s[i]]
  }

  /**
   * `uniqueKeys` keeps the length, leaves a first occurrence unchanged and
   * rewrites the k-th occurrence (k >= 2) to `key_k`.
   */
  lemma UniqueKeysSpec(keys: seq<string>)
    ensures |UniqueKeys(keys)| == |keys|
    ensures forall i :: 0 <= i < |keys| ==>
      UniqueKeys(keys)[i] == (if Occurrence(keys, i) == 1 then keys[i] else keys[i] + "_" + NatText(Occurrence(keys, i)))
  {
    ClaimAllSpec(map[], keys, '_');
    forall i | 0 <= i < |keys|
      ensures Occurrence(keys, i) >= 1
    {
      assert keys[..i + 1][i] == keys[i];
    }
  }

  /** `["name", "name"]` becomes `["name", "name_2"]`. */
  lemma UniqueKeysExample()
    ensures UniqueKeys(["name", "name"]) == ["name", "name_2"]
  {
    assert NatText(2) == "2";
    var c1 := Claim(map[], "name", '_');
    assert c1 == ("name", map["name" := 1]);
    var c2 := Claim(c1.1, "name", '_');
    assert c2.0 == "name_2";
    assert ClaimAll(c1.1, ["name"], '_').0 == ["name_2"];
  }

  /** `b` looks like an already-suffixed name: `<anything><sep><digits>`. */
  ghost predicate EndsWithCounter(b: string, sep: char) {
    exists k :: 0 <= k < |b| - 1 && b[k] == sep && AllDigits(b[k + 1..])
  }

  lemma SuffixedShape(base: string, k: nat, sep: char)
    requires k > 1
    ensures Suffixed(base, k, sep) == base + [sep] + NatText(k)
    ensures EndsWithCounter(Suffixed(base, k, sep), sep)
  {
    var r := base + [sep] + NatText(k);
    assert r[|base|] == sep && r[|base| + 1..] == NatText(k);
  }

  lemma SuffixedDistinctSameBase(base: string, j: nat, k: nat, sep: char)
    requires 1 <= j < k
    ensures Suffixed(base, j, sep) != Suffixed(base, k, sep)
  {
    if j > 1 && Suffixed(base, j, sep) == Suffixed(base, k, sep) {
      var tj, tk := NatText(j), NatText(k);
      assert (base + [sep] + tj)[|base| + 1..] == tj;
      assert (base + [sep] + tk)[|base| + 1..] == tk;
      NatTextInjective(j, k);
    }
  }

  lemma SuffixedDistinctBases(b1: string, b2: string, j: nat, k: nat, sep: char)
    requires !IsDigit(sep) && b1 != b2 && j > 1 && k > 1
    ensures Suffixed(b1, j, sep) != Suffixed(b2, k, sep)
  {
    var s1, s2 := b1 + [sep] + NatText(j), b2 + [sep] + NatText(k);
    if |b1| == |b2| {
      assert s1[..|b1|] == b1 && s2[..|b2|] == b2;
    } else if |s1| == |s2| {
      if |b1| < |b2| {
        assert IsDigit(s1[|b2|]) by { assert s1[|b2|] == NatText(j)[|b2| - |b1| - 1]; }
        assert s2[|b2|] == sep;
      } else {
        assert IsDigit(s2[|b1|]) by { assert s2[|b1|] == NatText(k)[|b1| - |b2| - 1]; }
        assert s1[|b1|] == sep;
      }
    }
  }

  lemma SuffixedDistinct(b1: string, j: nat, b2: string, k: nat, sep: char)
    requires !IsDigit(sep) && j >= 1 && k >= 1 && (b1, j) != (b2, k)
    requires !EndsWithCounter(b1, sep) && !EndsWithCounter(b2, sep)
    ensures Suffixed(b1, j, sep) != Suffixed(b2, k, sep)
  {
    if b1 == b2 {
      if j < k { SuffixedDistinctSameBase(b1, j, k, sep); }
      else { SuffixedDistinctSameBase(b1, k, j, sep); }
    } else if j > 1 && k > 1 {
      SuffixedDistinctBases(b1, b2, j, k, sep);
    } else if j > 1 {
      SuffixedShape(b1, j, sep);
    } else if k > 1 {
      SuffixedShape(b2, k, sep);
    }
  }

  /**
   * With a fresh counter, outputs are pairwise distinct provided no base
   * already has the shape `<text><sep><digits>`.
   */
  lemma ClaimAllDistinct(bases: seq<string>, sep: char)
    requires !IsDigit(sep)
    requires forall i :: 0 <= i < |bases| ==> !EndsWithCounter(bases[i], sep)
    ensures forall i, j :: 0 <= i < j < |bases| ==> ClaimAll(map[], bases, sep).0[i] != ClaimAll(map[], bases, sep).0[j]
  {
    var out := ClaimAll(map[], bases, sep).0;
    ClaimAllSpec(map[], bases, sep);
    forall i, j | 0 <= i < j < |bases|
      ensures out[i] != out[j]
    {
      assert Seen(map[], bases[i]) == 0 && Seen(map[], bases[j]) == 0;
      OutputsDiffer(bases, out, i, j, sep);
    }
  }

  /** Two outputs built from their occurrence counts differ. */
  lemma OutputsDiffer(bases: seq<string>, out: seq<string>, i: nat, j: nat, sep: char)
    requires !IsDigit(sep) && i < j < |bases| && |out| == |bases|
    requires !EndsWithCounter(bases[i], sep) && !EndsWithCounter(bases[j], sep)
    requires out[i] == Suffixed(bases[i], Occurrence(bases, i), sep)
    requires out[j] == Suffixed(bases[j], Occurrence(bases, j), sep)
    ensures out[i] != out[j]
  {
    OccurrenceAdvances(bases, i, j);
    SuffixedDistinct(bases[i], Occurrence(bases, i), bases[j], Occurrence(bases, j), sep);
  }

  /** Every occurrence counts itself, and a later occurrence of the same base counts more. */
  lemma OccurrenceAdvances(s: seq<string>, i: nat, j: nat)
    requires i < j < |s|
    ensures Occurrence(s, i) >= 1 && Occurrence(s, j) >= 1
    ensures s[i] == s[j] ==> Occurrence(s, i) < Occurrence(s, j)
  {
    assert s[..i + 1][i] == s[i];
    assert s[..j + 1][j] == s[j];
    if s[i] == s[j] {
      assert s[..j + 1] == s[..i + 1] + s[i + 1..j + 1];
      assert s[i + 1..j + 1][j - i - 1] == s[j];
    }
  }

  /** Without that proviso names collide: `["x-2", "x", "x"]` yields `"x-2"` twice. */
  lemma ClaimAllCollision()
    ensures ClaimAll(map[], ["x-2", "x", "x"], '-').0 == ["x-2", "x", "x-2"]
  {
    assert NatText(2) == "2";
    var m1 := map["x-2" := 1];
    var m2 := m1["x" := 1];
    assert Claim(map[], "x-2", '-') == ("x-2", m1);
    assert Claim(m1, "x", '-') == ("x", m2);
    assert Claim(m2, "x", '-').0 == "x-2";
    assert ClaimAll(m2, ["x"], '-').0 == ["x-2"];
    assert ClaimAll(m1, ["x", "x"], '-').0 == ["x", "x-2"];
  }
}
