/**
 * Label sanitising used at import time: `toSnake` (column keys and table
 * names) and `slugify` (row slugs), both built from the same two regular
 * expression rewrites: `/[^a-z0-9]+/g -> sep` and `/(^sep|sep$)/g -> ''`.
 */
module Identifiers {
  import opened Text

  /** `s` uses only `[a-z0-9]` and `sep`, and never two `sep` in a row. */
  predicate Clean(s: string, sep: char) {
    && (forall i :: 0 <= i < |s| ==> IsLowerAlnum(s[i]) || s[i] == sep)
    && (forall i :: 0 <= i < |s| - 1 ==> !(s[i] == sep && s[i + 1] == sep))
  }

  /** `s` neither starts nor ends with `sep`. */
  predicate Trimmed(s: string, sep: char) {
    s == [] || (s[0] != sep && s[|s| - 1] != sep)
  }

  /** Skips the run of characters outside `[a-z0-9]` at the front of `s`. */
  function SkipRun(s: string): (r: string)
    ensures |r| <= |s|
    ensures r == [] || IsLowerAlnum(r[0])
    ensures s != [] && IsLowerAlnum(s[0]) ==> r == s
  {
    if s != [] && !IsLowerAlnum(s[0]) then SkipRun(s[1..]) else s
  }

  /** `s.replace(/[^a-z0-9]+/g, sep)`: every maximal run outside `[a-z0-9]` becomes one `sep`. */
  function ReplaceRuns(s: string, sep: char): (r: string)
    requires !IsLowerAlnum(sep)
    ensures Clean(r, sep)
    ensures s == [] <==> r == []
    ensures s != [] && IsLowerAlnum(s[0]) ==> r[0] == s[0]
    ensures s != [] && !IsLowerAlnum(s[0]) ==> r[0] == sep
    decreases |s|
  {
    if s == [] then []
    else if IsLowerAlnum(s[0]) then [s[0]] + ReplaceRuns(s[1..], sep)
    else [sep] + ReplaceRuns(SkipRun(s[1..]), sep)
  }

  /** `s.replace(/(^sep|sep$)/g, '')`: at most one `sep` removed at each end. */
  function StripEdges(s: string, sep: char): string {
    var a := if s != [] && s[0] == sep then s[1..] else s;
    if a != [] && a[|a| - 1] == sep then a[..|a| - 1] else a
  }

  /** `toSnake`: lower-case, runs to `_`, edges stripped, `column` if empty, `c_` before a digit. */
  function ToSnake(raw: string): string {
    var base := StripEdges(ReplaceRuns(Lower(raw), '_'), '_');
    if base == "" then "column"
    else if IsDigit(base[0]) then "c_" + base
    else base
  }

  /** `slugify`: lower-case, runs to `-`, edges stripped; may be empty. */
  function Slugify(raw: string): string {
    StripEdges(ReplaceRuns(Lower(raw), '-'), '-')
  }

  /** What `toSnake` always produces. */
  predicate SnakeShape(r: string) {
    && r != []
    && Clean(r, '_')
    && Trimmed(r, '_')
    && !IsDigit(r[0])
  }

  /** What `slugify` always produces. */
  predicate SlugShape(r: string) {
    Clean(r, '-') && Trimmed(r, '-')
  }

  lemma StripEdgesClean(s: string, sep: char)
    requires Clean(s, sep)
    ensures Clean(StripEdges(s, sep), sep) && Trimmed(StripEdges(s, sep), sep)
  {
    var a := if s != [] && s[0] == sep then s[1..] else s;
    assert Clean(a, sep);
    assert a != [] ==> a[0] != sep by {
      if a != [] && s != [] && s[0] == sep {
        assert s[1] == a[0];
      }
    }
    if a != [] && a[|a| - 1] == sep && |a| > 1 {
      assert a[|a| - 2] != sep;
    }
  }

  lemma {:induction false} LowerClean(s: string, sep: char)
    requires Clean(s, sep) && !IsUpperLetter(sep)
    ensures Lower(s) == s
  {
    assert forall i :: 0 <= i < |s| ==> !IsUpperLetter(s[i]);
  }

  lemma {:induction false} ReplaceRunsClean(s: string, sep: char)
    requires !IsLowerAlnum(sep) && Clean(s, sep)
    ensures ReplaceRuns(s, sep) == s
    decreases |s|
  {
    if s != [] {
      assert Clean(s[1..], sep);
      if s[0] == sep && |s| > 1 {
        assert s[1] != sep;
        assert SkipRun(s[1..]) == s[1..];
      }
      ReplaceRunsClean(s[1..], sep);
    }
  }

  lemma StripEdgesTrimmed(s: string, sep: char)
    requires Trimmed(s, sep)
    ensures StripEdges(s, sep) == s
  {
  }

  /** Every `toSnake` result is non-empty, uses only `[a-z0-9_]`, has no `__`, no edge `_` and no leading digit. */
  lemma ToSnakeShape(raw: string)
    ensures SnakeShape(ToSnake(raw))
  {
    var base := StripEdges(ReplaceRuns(Lower(raw), '_'), '_');
    StripEdgesClean(ReplaceRuns(Lower(raw), '_'), '_');
    var r := ToSnake(raw);
    if base == "" {
      assert r == "column";
      assert Clean(r, '_') by {
        assert forall i :: 0 <= i < |r| ==> IsLowerLetter(r[i]);
      }
    } else if IsDigit(base[0]) {
      assert r == "c_" + base;
      assert forall i :: 2 <= i < |r| ==> r[i] == base[i - 2];
      assert r[2] == base[0];
      assert forall i :: 0 <= i < |r| - 1 ==> !(r[i] == '_' && r[i + 1] == '_') by {
        forall i | 0 <= i < |r| - 1
          ensures !(r[i] == '_' && r[i + 1] == '_')
        {
          if i >= 2 {
            assert r[i] == base[i - 2] && r[i + 1] == base[i - 1];
          }
        }
      }
    }
  }

  /** A string already in `toSnake` shape is its own `toSnake`. */
  lemma ToSnakeFixed(r: string)
    requires SnakeShape(r)
    ensures ToSnake(r) == r
  {
    LowerClean(r, '_');
    ReplaceRunsClean(r, '_');
    StripEdgesTrimmed(r, '_');
  }

  /** A slug-shaped string is its own slug. */
  lemma SlugifyFixed(r: string)
    requires SlugShape(r)
    ensures Slugify(r) == r
  {
    LowerClean(r, '-');
    ReplaceRunsClean(r, '-');
    StripEdgesTrimmed(r, '-');
  }

  /** `toSnake` is idempotent. */
  lemma ToSnakeIdempotent(raw: string)
    ensures ToSnake(ToSnake(raw)) == ToSnake(raw)
  {
    ToSnakeShape(raw);
    ToSnakeFixed(ToSnake(raw));
  }

  /** Every `slugify` result uses only `[a-z0-9-]`, has no `--` and no edge `-`. */
  lemma SlugifyShape(raw: string)
    ensures SlugShape(Slugify(raw))
  {
    StripEdgesClean(ReplaceRuns(Lower(raw), '-'), '-');
  }

  /** `slugify` is idempotent. */
  lemma SlugifyIdempotent(raw: string)
    ensures Slugify(Slugify(raw)) == Slugify(raw)
  {
    var r := Slugify(raw);
    SlugifyShape(raw);
    LowerClean(r, '-');
    ReplaceRunsClean(r, '-');
    StripEdgesTrimmed(r, '-');
  }

  /** A raw with no letter or digit slugs to the empty string. */
  lemma SlugifyMayBeEmpty()
    ensures Slugify("") == ""
    ensures Slugify("!!") == ""
  {
    assert Lower("!!") == "!!";
    assert SkipRun("!") == "";
    assert ReplaceRuns("!!", '-') == "-";
  }

  /** Examples: a plain header, a header that starts with a digit, and one with no letter or digit. */
  lemma ToSnakeOfName()
    ensures ToSnake("Name") == "name"
  {
    assert Lower("Name") == "name";
    assert ReplaceRuns("name", '_') == "name";
  }

  lemma ToSnakeOfYear()
    ensures ToSnake("2024") == "c_2024"
  {
    assert Lower("2024") == "2024";
    assert ReplaceRuns("2024", '_') == "2024";
  }

  lemma ToSnakeFallback()
    ensures ToSnake("!!") == "column"
  {
    assert Lower("!!") == "!!";
    assert SkipRun("!") == "";
    assert ReplaceRuns("!!", '_') == "_";
  }
}
