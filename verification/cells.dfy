/**
 * JavaScript values as they reach the core: spreadsheet cells from the xlsx
 * reader and column values from the database.
 */
module Cells {
  import opened Text
  import opened JsNumber

  /** A cell or column value; `Undefined` is a missing property. */
  datatype Cell = Undefined | Null | Str(s: string) | Num(n: JsNum) | Bool(b: bool)

  /** A row object: column name to value; absent names read as `undefined`. */
  type Row = map<string, Cell>

  /** `row[key]` */
  function Get(row: Row, key: string): (c: Cell)
    ensures key !in row ==> c == Undefined
  {
    if key in row then row[key] else Undefined
  }

  /** `value === null || value === undefined` */
  predicate IsNullish(c: Cell) {
    c.Undefined? || c.Null?
  }

  /** `String(value)` */
  function CellText(c: Cell): string {
    match c
    case Undefined => "undefined"
    case Null => "null"
    case Str(s) => s
    case Num(n) => NumText(n)
    case Bool(b) => if b then "true" else "false"
  }

  /** JavaScript truthiness: `Boolean(value)`. */
  predicate Truthy(c: Cell) {
    match c
    case Undefined => false
    case Null => false
    case Str(s) => s != ""
    case Num(n) => n.PosInf? || n.NegInf? || (n.Finite? && n.d.mantissa != 0)
    case Bool(b) => b
  }

  /** A finite number value. */
  function NumCell(d: Dec): Cell {
    Num(Finite(d))
  }
}
