/**
 * SQL text produced by the import script: quoted identifiers (`quoteId`) and
 * literal values (`toSqlValue`).
 */
module SqlText {
  import opened Wrappers
  import opened Text
  import opened JsNumber
  import opened Cells

  /** `s.replace(/q/g, qq)`: every `q` doubled. */
  function Double(s: string, q: char): (r: string)
    ensures |r| >= |s|
  {
    if s == [] then ""
    else if s[0] == q then [q, q] + Double(s[1..], q)
    else [s[0]] + Double(s[1..], q)
  }

  /** Reads the inside of a quoted token back: `qq` is one `q`, a lone `q` is malformed. */
  function Undouble(s: string, q: char): Option<string> {
    if s == [] then Some("")
    else if s[0] == q then
      if |s| >= 2 && s[1] == q then
        match Undouble(s[2..], q)
        case Some(t) => Some([q] + t)
        case None => None
      else None
    else
      match Undouble(s[1..], q)
      case Some(t) => Some([s[0]] + t)
      case None => None
  }

  lemma {:induction false} UndoubleDouble(s: string, q: char)
    ensures Undouble(Double(s, q), q) == Some(s)
  {
    if s != [] {
      UndoubleDouble(s[1..], q);
      var d := Double(s, q);
      if s[0] == q {
        assert d[2..] == Double(s[1..], q);
      } else {
        assert d[1..] == Double(s[1..], q);
      }
      assert s == [s[0]] + s[1..];
    }
  }

  /** `quoteId`: the identifier in double quotes, inner double quotes doubled. */
  function QuoteId(v: string): (r: string)
    ensures |r| >= 2 && r[0] == '"' && r[|r| - 1] == '"'
    ensures Undouble(r[1..|r| - 1], '"') == Some(v)
  {
    var body := Double(v, '"');
    UndoubleDouble(v, '"');
    var r := "\"" + body + "\"";
    assert r[1..|r| - 1] == body;
    r
  }

  /** `s.replace(/\r?\n/g, ' ')` */
  function FlattenLines(s: string): (r: string)
    ensures forall i :: 0 <= i < |r| ==> r[i] != '\n'
    ensures |r| <= |s|
  {
    if s == [] then ""
    else if s[0] == '\n' then " " + FlattenLines(s[1..])
    else if |s| >= 2 && s[0] == '\r' && s[1] == '\n' then " " + FlattenLines(s[2..])
    else [s[0]] + FlattenLines(s[1..])
  }

  lemma {:induction false} DoubleKeepsNoNewline(s: string, q: char)
    requires q != '\n'
    requires forall i :: 0 <= i < |s| ==> s[i] != '\n'
    ensures forall i :: 0 <= i < |Double(s, q)| ==> Double(s, q)[i] != '\n'
  {
    if s != [] {
      DoubleKeepsNoNewline(s[1..], q);
    }
  }

  /** `toSqlValue`: the SQL literal written for one cell. */
  function ToSqlValue(c: Cell): (r: string)
    ensures forall i :: 0 <= i < |r| ==> r[i] != '\n'
    ensures (c.Null? || c.Undefined? || c == Str("")) ==> r == "NULL"
    ensures c.Num? && !c.n.Finite? ==> r == "NULL"
    ensures c.Bool? ==> r == (if c.b then "1" else "0")
    ensures c.Num? && c.n.Finite? ==> ParseNumber(r) == Finite(Normalize(c.n.d))
    ensures c.Str? && c.s != "" ==>
      && |r| >= 2 && r[0] == '\'' && r[|r| - 1] == '\''
      && Undouble(r[1..|r| - 1], '\'') == Some(FlattenLines(c.s))
  {
    match c
    case Undefined => "NULL"
    case Null => "NULL"
    case Num(n) =>
      if n.Finite? then
        ParseDecText(n.d);
        DecTextDigits(n.d);
        DecText(n.d)
      else "NULL"
    case Bool(b) => if b then "1" else "0"
    case Str(s) =>
      if s == "" then "NULL"
      else
        var body := Double(FlattenLines(s), '\'');
        UndoubleDouble(FlattenLines(s), '\'');
        DoubleKeepsNoNewline(FlattenLines(s), '\'');
        var r := "'" + body + "'";
        assert r[1..|r| - 1] == body;
        r
  }

  /** Number text uses only digits, `.` and `-`. */
  lemma DecTextDigits(d: Dec)
    ensures forall i :: 0 <= i < |DecText(d)| ==> DecText(d)[i] != '\n'
  {
    var c := Normalize(d);
    var a := Abs(c.mantissa);
    var u := UnsignedText(a, c.exp);
    assert forall i :: 0 <= i < |u| ==> IsDigit(u[i]) || u[i] == '.' by {
      if c.exp > 0 {
        var (q, r) := DivMod(a, Pow10(c.exp));
        NatTextLength(r, c.exp);
        var lo := PadZeros(NatText(r), c.exp);
        assert AllDigits(lo) by {
          if |NatText(r)| < c.exp {
            assert lo == Zeros(c.exp - |NatText(r)|) + NatText(r);
          }
        }
        assert u == NatText(q) + "." + lo;
      }
    }
  }
}
