/**
 * The SQL statements the import script emits, as data, and their exact text.
 * A script file is the statements' texts joined with newlines.
 */
module Statements {
  import opened Text

  /**
   * Table and column names are stored as they appear in the text (already
   * quoted where the script quotes them).
   */
  datatype Statement =
    | DropTable(table: string)
    | CreateTable(table: string, defs: seq<string>)
    | CreateIndex(name: string, table: string, column: string)
    | DeleteFrom(table: string)
    | Insert(replace: bool, table: string, columns: seq<string>, values: seq<string>)

  function Render(st: Statement): string {
    match st
    case DropTable(t) => "DROP TABLE IF EXISTS " + t + ";"
    case CreateTable(t, defs) => "CREATE TABLE IF NOT EXISTS " + t + " (\n  " + Join(defs, ",\n  ") + "\n);"
    case CreateIndex(n, t, c) => "CREATE INDEX IF NOT EXISTS " + n + " ON " + t + " (" + c + ");"
    case DeleteFrom(t) => "DELETE FROM " + t + ";"
    case Insert(replace, t, cols, vals) =>
      (if replace then "INSERT OR REPLACE INTO " else "INSERT INTO ") + t
      + " (" + Join(cols, ", ") + ") VALUES (" + Join(vals, ", ") + ");"
  }

  /** `statements.join('\n')`: the content of a generated file. */
  function Script(stmts: seq<Statement>): string {
    Join(Rendered(stmts), "\n")
  }

  function Rendered(stmts: seq<Statement>): (r: seq<string>)
    ensures |r| == |stmts|
    ensures forall i :: 0 <= i < |r| ==> r[i] == Render(stmts[i])
  {
    seq(|stmts|, i requires 0 <= i < |stmts| => Render(stmts[i]))
  }

  predicate SingleLine(s: string) {
    forall i :: 0 <= i < |s| ==> s[i] != '\n'
  }

  /** `text.split('\n')` */
  function Lines(s: string): (r: seq<string>)
    ensures |r| >= 1
  {
    if s == [] then [""]
    else
      var rest := Lines(s[1..]);
      if s[0] == '\n' then [""] + rest else [[s[0]] + rest[0]] + rest[1..]
  }

  lemma {:induction false} LinesPrefix(a: string, t: string)
    requires SingleLine(a)
    ensures Lines(a + t) == [a + Lines(t)[0]] + Lines(t)[1..]
  {
    if a != [] {
      assert (a + t)[1..] == a[1..] + t;
      LinesPrefix(a[1..], t);
      assert (a + t)[0] == a[0];
      assert [a[0]] + (a[1..] + Lines(t)[0]) == a + Lines(t)[0];
    } else {
      assert a + t == t && a + Lines(t)[0] == Lines(t)[0];
      assert Lines(t) == [Lines(t)[0]] + Lines(t)[1..];
    }
  }

  /** Splitting a newline-joined list of single-line parts gives the parts back. */
  lemma {:induction false} LinesJoin(parts: seq<string>)
    requires parts != []
    requires forall i :: 0 <= i < |parts| ==> SingleLine(parts[i])
    ensures Lines(Join(parts, "\n")) == parts
  {
    if |parts| == 1 {
      LinesPrefix(parts[0], "");
      assert parts[0] + "" == parts[0];
      assert Lines("") == [""];
    } else {
      var rest := Join(parts[1..], "\n");
      LinesJoin(parts[1..]);
      assert ("\n" + rest)[1..] == rest;
      assert Lines("\n" + rest) == [""] + parts[1..];
      LinesPrefix(parts[0], "\n" + rest);
      assert Join(parts, "\n") == parts[0] + ("\n" + rest);
      assert Lines("\n" + rest)[0] == "" && Lines("\n" + rest)[1..] == parts[1..];
      assert parts[0] + "" == parts[0];
      assert parts == [parts[0]] + parts[1..];
    }
  }

  lemma {:induction false} JoinSingleLine(parts: seq<string>, sep: string)
    requires SingleLine(sep)
    requires forall i :: 0 <= i < |parts| ==> SingleLine(parts[i])
    ensures SingleLine(Join(parts, sep))
  {
    if |parts| > 1 {
      JoinSingleLine(parts[1..], sep);
    }
  }

  /** Whether a statement is written on one line: every statement except the table and index definitions. */
  predicate OneLineKind(st: Statement) {
    st.DropTable? || st.DeleteFrom? || st.Insert?
  }

  /** The names and values of a statement, none of which may hold a line break for the statement to stay on one line. */
  predicate PartsSingleLine(st: Statement) {
    match st
    case DropTable(t) => SingleLine(t)
    case DeleteFrom(t) => SingleLine(t)
    case Insert(_, t, cols, vals) =>
      SingleLine(t) && (forall i :: 0 <= i < |cols| ==> SingleLine(cols[i]))
      && (forall i :: 0 <= i < |vals| ==> SingleLine(vals[i]))
    case _ => false
  }

  lemma SingleLineAppend(a: string, b: string)
    requires SingleLine(a) && SingleLine(b)
    ensures SingleLine(a + b)
  {
  }

  lemma RenderSingleLine(st: Statement)
    requires PartsSingleLine(st)
    ensures SingleLine(Render(st))
  {
    match st
    case DropTable(t) =>
      SingleLineAppend("DROP TABLE IF EXISTS ", t);
      SingleLineAppend("DROP TABLE IF EXISTS " + t, ";");
    case DeleteFrom(t) =>
      SingleLineAppend("DELETE FROM ", t);
      SingleLineAppend("DELETE FROM " + t, ";");
    case Insert(replace, t, cols, vals) =>
      var head := if replace then "INSERT OR REPLACE INTO " else "INSERT INTO ";
      JoinSingleLine(cols, ", ");
      JoinSingleLine(vals, ", ");
      var c := Join(cols, ", ");
      var v := Join(vals, ", ");
      SingleLineAppend(head, t);
      SingleLineAppend(head + t, " (");
      SingleLineAppend(head + t + " (", c);
      SingleLineAppend(head + t + " (" + c, ") VALUES (");
      SingleLineAppend(head + t + " (" + c + ") VALUES (", v);
      SingleLineAppend(head + t + " (" + c + ") VALUES (" + v, ");");
  }

  /**
   * A script of one-line statements is one statement per line: splitting the
   * file on newlines gives back each statement's text, in order.
   */
  lemma ScriptLines(stmts: seq<Statement>)
    requires stmts != []
    requires forall i :: 0 <= i < |stmts| ==> PartsSingleLine(stmts[i])
    ensures Lines(Script(stmts)) == Rendered(stmts)
  {
    forall i | 0 <= i < |stmts|
      ensures SingleLine(Rendered(stmts)[i])
    {
      RenderSingleLine(stmts[i]);
    }
    LinesJoin(Rendered(stmts));
  }
}
