/**
 * The request-time dataset reader: the catalog query, decoding of the stored
 * column list, and the two row queries built from a catalog entry. The
 * database is a function from a query to its optional result set; SQLite's
 * own evaluation of the query is not modelled.
 */
module Datasets {
  import opened Wrappers
  import opened Text
  import opened JsNumber
  import opened Cells
  import opened Json
  import opened Catalog
  import opened Identifiers
  import SeedGen
  import Filtering

  // ---------------------------------------------------------------- identifiers

  /** One character of `/^[a-z0-9_]+$/i`. */
  predicate IsIdentChar(c: char) {
    IsLowerAlnum(c) || IsUpperLetter(c) || c == '_'
  }

  /** Position of the first character outside the identifier class, or `|s|`. */
  function FirstUnsafe(s: string): (k: nat)
    ensures k <= |s|
    ensures forall i :: 0 <= i < k ==> IsIdentChar(s[i])
    ensures k < |s| ==> !IsIdentChar(s[k])
  {
    if s == [] || !IsIdentChar(s[0]) then 0 else 1 + FirstUnsafe(s[1..])
  }

  /** The only error the reader raises itself: `Unsafe identifier: <value>`. */
  datatype ReadError = UnsafeIdentifier(value: string)

  function Message(e: ReadError): string {
    "Unsafe identifier: " + e.value
  }

  /** `ensureIdentifier`: the value itself when it is a non-empty run of `[A-Za-z0-9_]`, otherwise a throw. */
  function EnsureIdentifier(value: string): (r: Result<string, ReadError>)
    ensures r.Ok? <==> value != "" && forall i :: 0 <= i < |value| ==> IsIdentChar(value[i])
    ensures r.Ok? ==> r.value == value
    ensures r.Err? ==> r.error == UnsafeIdentifier(value)
  {
    if value != "" && FirstUnsafe(value) == |value| then Ok(value) else Err(UnsafeIdentifier(value))
  }

  predicate Safe(value: string) {
    EnsureIdentifier(value).Ok?
  }

  /** `columns.map(c => ensureIdentifier(c.key))`: the keys, or the throw of the first unsafe one. */
  function EnsureKeys(columns: seq<Column>): (r: Result<seq<string>, ReadError>)
    ensures r.Ok? <==> forall i :: 0 <= i < |columns| ==> Safe(columns[i].key)
    ensures r.Ok? ==> r.value == Keys(columns)
    ensures r.Err? ==> exists k :: (0 <= k < |columns| && !Safe(columns[k].key)
      && r.error == UnsafeIdentifier(columns[k].key)
      && forall i :: 0 <= i < k ==> Safe(columns[i].key))
  {
    if columns == [] then Ok([])
    else
      match EnsureIdentifier(columns[0].key)
      case Err(e) => Err(e)
      case Ok(key) =>
        match EnsureKeys(columns[1..])
        case Err(e) =>
          assert forall i :: 1 <= i < |columns| ==> columns[i] == columns[1..][i - 1];
          Err(e)
        case Ok(rest) => Ok([key] + rest)
  }

  /** Every identifier ever spliced into SQL text is safe. */
  lemma SnakeIsSafe(s: string)
    requires SnakeShape(s)
    ensures Safe(s)
  {
  }

  // ---------------------------------------------------------------- column list

  /** `String(column?.<name> ?? '')` for one element of the parsed array. */
  function ColumnField(item: Json, name: string): string {
    match item
    case JObj(fields) =>
      var f := Field(fields, name);
      if f.None? || f.value.JNull? then "" else JsonString(f.value)
    case _ => ""
  }

  function ToColumns(items: seq<Json>): (r: seq<Column>)
    ensures |r| == |items|
    ensures forall i :: 0 <= i < |items| ==> r[i] == Column(ColumnField(items[i], "key"), ColumnField(items[i], "label"))
  {
    seq(|items|, i requires 0 <= i < |items| => Column(ColumnField(items[i], "key"), ColumnField(items[i], "label")))
  }

  predicate NonBlankColumn(c: Column) {
    c.key != "" && c.title != ""
  }

  /**
   * `.filter(c => c.key && c.label)`: every complete column, as often as it
   * occurs, and nothing else (in order: `NonBlankAppend`).
   */
  function NonBlank(columns: seq<Column>): (r: seq<Column>)
    ensures |r| <= |columns|
    ensures forall i :: 0 <= i < |r| ==> NonBlankColumn(r[i])
    ensures forall c :: multiset(r)[c] == (if NonBlankColumn(c) then multiset(columns)[c] else 0)
    ensures forall i :: 0 <= i < |r| ==> r[i] in columns
    ensures forall i :: 0 <= i < |columns| && NonBlankColumn(columns[i]) ==> columns[i] in r
  {
    Filtering.FilterMembers(columns, NonBlankColumn);
    Filtering.Filter(columns, NonBlankColumn)
  }

  /** The filter keeps order: the columns kept from `a + b` are those kept from `a`, then those kept from `b`. */
  lemma NonBlankAppend(a: seq<Column>, b: seq<Column>)
    ensures NonBlank(a + b) == NonBlank(a) + NonBlank(b)
  {
    Filtering.FilterAppend(a, b, NonBlankColumn);
  }

  /** Filtering leaves a list of complete columns as it is. */
  lemma NonBlankKeepsComplete(columns: seq<Column>)
    requires forall i :: 0 <= i < |columns| ==> NonBlankColumn(columns[i])
    ensures NonBlank(columns) == columns
  {
    Filtering.FilterAll(columns, NonBlankColumn);
  }

  /**
   * `parseColumns` applied to the outcome of `JSON.parse`: malformed text and
   * non-arrays give no columns; for an array, every complete column read from
   * its elements, as often as it occurs, and nothing else.
   */
  function ParseColumns(decoded: Decoded): (r: seq<Column>)
    ensures forall i :: 0 <= i < |r| ==> NonBlankColumn(r[i])
    ensures decoded.Malformed? || !decoded.value.JArr? ==> r == []
    ensures decoded.Parsed? && decoded.value.JArr? ==> |r| <= |decoded.value.items|
    ensures decoded.Parsed? && decoded.value.JArr? ==> forall c ::
      multiset(r)[c] == (if NonBlankColumn(c) then multiset(ToColumns(decoded.value.items))[c] else 0)
    ensures decoded.Parsed? && decoded.value.JArr? ==> r == NonBlank(ToColumns(decoded.value.items))
  {
    match decoded
    case Malformed => []
    case Parsed(JArr(items)) => NonBlank(ToColumns(items))
    case Parsed(_) => []
  }

  /** Reading back what the import script stored keeps exactly the columns with a key and a label. */
  lemma ParseColumnsRoundTrip(columns: seq<Column>)
    ensures ParseColumns(Parsed(ColumnsJsonValue(columns))) == NonBlank(columns)
  {
    var items := ColumnsJsonValue(columns).items;
    forall i | 0 <= i < |columns|
      ensures ToColumns(items)[i] == columns[i]
    {
      var fields := [("key", JStr(columns[i].key)), ("label", JStr(columns[i].title))];
      assert items[i] == JObj(fields);
      assert fields[..1] == [("key", JStr(columns[i].key))];
      assert Field(fields, "label") == Some(JStr(columns[i].title));
      assert Field(fields, "key") == Some(JStr(columns[i].key));
    }
    assert ToColumns(items) == columns;
  }

  // ---------------------------------------------------------------- catalog

  /** A query as handed to `prepare(...).bind(...)`. */
  datatype Query = Query(sql: string, binds: seq<string>)

  /** `db.prepare(q).all()` gives `result?.results`; `None` is a missing result set. */
  type AllRows = Query -> Option<seq<Row>>

  /** `db.prepare(q).bind(...).first()`; `None` is `null`. */
  type FirstRow = Query -> Option<Row>

  /** `JSON.parse`, with `Malformed` for a throw. */
  type Decoder = string -> Decoded

  const MetaSql := "SELECT key, label, table_name, columns_json, row_count, sort_order, primary_column, price_column, has_slug\n"
    + "       FROM dataset_meta\n       ORDER BY sort_order ASC"

  /** `Number(value)` */
  function NumberOf(c: Cell): JsNum {
    match c
    case Undefined => NaN
    case Null => Finite(Zero)
    case Str(s) => ParseNumber(s)
    case Num(n) => n
    case Bool(b) => Finite(Dec(if b then 1 else 0, 0))
  }

  /** `value ?? fallback`: never nullish when the fallback is not. */
  function OrElse(c: Cell, fallback: Cell): (r: Cell)
    ensures !IsNullish(c) ==> r == c
    ensures IsNullish(c) ==> r == fallback
    ensures !IsNullish(fallback) ==> !IsNullish(r)
  {
    if IsNullish(c) then fallback else c
  }

  /** `value ? String(value) : null`: a name is present only when non-empty. */
  function TextIfTruthy(c: Cell): (r: Option<string>)
    ensures r.Some? <==> Truthy(c)
    ensures r.Some? ==> r.value == CellText(c)
    ensures NoEmptyName(r)
  {
    if Truthy(c) then Some(CellText(c)) else None
  }

  /**
   * One `dataset_meta` row as the reader turns it into a catalog entry. A
   * missing or null count or position reads as 0, a missing column list as
   * `[]`, an empty primary or price column name as none, and a missing table
   * name as the text `undefined`; only complete columns are kept.
   */
  function MetaFromRow(row: Row, decode: Decoder): (r: DatasetMeta)
    ensures IsNullish(Get(row, "row_count")) ==> r.rowCount == Finite(Zero)
    ensures IsNullish(Get(row, "sort_order")) ==> r.sortOrder == Finite(Zero)
    ensures IsNullish(Get(row, "columns_json")) && decode("[]") == Parsed(JArr([])) ==> r.columns == []
    ensures forall i :: 0 <= i < |r.columns| ==> NonBlankColumn(r.columns[i])
    ensures NoEmptyName(r.primaryColumn) && NoEmptyName(r.priceColumn)
    ensures "table_name" !in row ==> r.tableName == "undefined"
    ensures Get(row, "key").Str? ==> r.key == Get(row, "key").s
    ensures r.hasSlug <==> Truthy(Get(row, "has_slug"))
  {
    DatasetMeta(
      CellText(Get(row, "key")),
      CellText(Get(row, "label")),
      CellText(Get(row, "table_name")),
      ParseColumns(decode(CellText(OrElse(Get(row, "columns_json"), Str("[]"))))),
      NumberOf(OrElse(Get(row, "row_count"), NumCell(Zero))),
      NumberOf(OrElse(Get(row, "sort_order"), NumCell(Zero))),
      TextIfTruthy(Get(row, "primary_column")),
      TextIfTruthy(Get(row, "price_column")),
      Truthy(Get(row, "has_slug")))
  }

  function MetasFromRows(rows: seq<Row>, decode: Decoder): (r: seq<DatasetMeta>)
    ensures |r| == |rows|
    ensures forall i :: 0 <= i < |rows| ==> r[i] == MetaFromRow(rows[i], decode)
  {
    seq(|rows|, i requires 0 <= i < |rows| => MetaFromRow(rows[i], decode))
  }

  /** `getDatasetMeta`: one entry per catalog row in the order the database returns them; a missing result set reads as empty. */
  function GetDatasetMeta(db: AllRows, decode: Decoder): (r: seq<DatasetMeta>)
    ensures db(Query(MetaSql, [])).None? ==> r == []
    ensures db(Query(MetaSql, [])).Some? ==> |r| == |db(Query(MetaSql, [])).value|
    ensures db(Query(MetaSql, [])).Some? ==>
      forall i :: 0 <= i < |r| ==> r[i] == MetaFromRow(db(Query(MetaSql, [])).value[i], decode)
  {
    MetasFromRows(db(Query(MetaSql, [])).GetOr([]), decode)
  }

  /** The row the catalog table holds after the import script's insert of `m`. */
  function StoredRow(m: SeedGen.MetaRow): Row {
    map[
      "key" := Str(m.key),
      "label" := Str(m.title),
      "table_name" := Str(m.tableName),
      "columns_json" := Str(ColumnsJsonText(m.columns)),
      "row_count" := NumCell(Dec(m.rowCount, 0)),
      "sort_order" := NumCell(Dec(m.sortOrder, 0)),
      "primary_column" := SeedGen.OptionCell(m.primaryColumn),
      "price_column" := SeedGen.OptionCell(m.priceColumn),
      "has_slug" := NumCell(Dec(m.hasSlug, 0))]
  }

  predicate NoEmptyName(v: Option<string>) {
    v.Some? ==> v.value != ""
  }

  /**
   * A catalog row written by the import script reads back as the entry it
   * describes, given that `JSON.parse` inverts `JSON.stringify` on the column list.
   */
  lemma MetaRoundTrip(m: SeedGen.MetaRow, decode: Decoder)
    requires decode(ColumnsJsonText(m.columns)) == Parsed(ColumnsJsonValue(m.columns))
    requires NoEmptyName(m.primaryColumn) && NoEmptyName(m.priceColumn)
    ensures MetaFromRow(StoredRow(m), decode) == DatasetMeta(
      m.key, m.title, m.tableName, NonBlank(m.columns),
      Finite(Dec(m.rowCount, 0)), Finite(Dec(m.sortOrder, 0)),
      m.primaryColumn, m.priceColumn, m.hasSlug != 0)
  {
    StoredRowHolds(m);
    MetaRowReads(StoredRow(m), m, decode);
  }

  /** `row` holds the catalog values of `m` under their column names. */
  predicate MetaHolds(row: Row, m: SeedGen.MetaRow) {
    && Get(row, "key") == Str(m.key)
    && Get(row, "label") == Str(m.title)
    && Get(row, "table_name") == Str(m.tableName)
    && Get(row, "columns_json") == Str(ColumnsJsonText(m.columns))
    && Get(row, "row_count") == NumCell(Dec(m.rowCount, 0))
    && Get(row, "sort_order") == NumCell(Dec(m.sortOrder, 0))
    && Get(row, "primary_column") == SeedGen.OptionCell(m.primaryColumn)
    && Get(row, "price_column") == SeedGen.OptionCell(m.priceColumn)
    && Get(row, "has_slug") == NumCell(Dec(m.hasSlug, 0))
  }

  lemma StoredRowHolds(m: SeedGen.MetaRow)
    ensures MetaHolds(StoredRow(m), m)
  {
    var row := StoredRow(m);
    assert Get(row, "key") == Str(m.key);
    assert Get(row, "label") == Str(m.title);
    assert Get(row, "table_name") == Str(m.tableName);
    assert Get(row, "columns_json") == Str(ColumnsJsonText(m.columns));
    assert Get(row, "row_count") == NumCell(Dec(m.rowCount, 0));
    assert Get(row, "sort_order") == NumCell(Dec(m.sortOrder, 0));
    assert Get(row, "primary_column") == SeedGen.OptionCell(m.primaryColumn);
    assert Get(row, "price_column") == SeedGen.OptionCell(m.priceColumn);
    assert Get(row, "has_slug") == NumCell(Dec(m.hasSlug, 0));
  }

  /** Any row holding the catalog values of `m` reads back as the entry `m` describes. */
  lemma MetaRowReads(row: Row, m: SeedGen.MetaRow, decode: Decoder)
    requires MetaHolds(row, m)
    requires decode(ColumnsJsonText(m.columns)) == Parsed(ColumnsJsonValue(m.columns))
    requires NoEmptyName(m.primaryColumn) && NoEmptyName(m.priceColumn)
    ensures MetaFromRow(row, decode) == DatasetMeta(
      m.key, m.title, m.tableName, NonBlank(m.columns),
      Finite(Dec(m.rowCount, 0)), Finite(Dec(m.sortOrder, 0)),
      m.primaryColumn, m.priceColumn, m.hasSlug != 0)
  {
    ParseColumnsRoundTrip(m.columns);
    OptionCellReads(m.primaryColumn);
    OptionCellReads(m.priceColumn);
  }

  lemma OptionCellReads(v: Option<string>)
    requires NoEmptyName(v)
    ensures TextIfTruthy(SeedGen.OptionCell(v)) == v
  {
  }

  // ---------------------------------------------------------------- row queries

  /** Which rows a query asks for: the whole table by `row_order`, or one row by slug. */
  datatype Clause = AllByRowOrder | OneBySlug

  /** A `SELECT` of quoted columns from a quoted table. */
  datatype Select = Select(columns: seq<string>, table: string, clause: Clause)

  function DoubleQuoted(names: seq<string>): (r: seq<string>)
    ensures |r| == |names|
    ensures forall i :: 0 <= i < |names| ==> r[i] == "\"" + names[i] + "\""
  {
    seq(|names|, i requires 0 <= i < |names| => "\"" + names[i] + "\"")
  }

  function ClauseSql(c: Clause): string {
    match c
    case AllByRowOrder => " ORDER BY row_order ASC"
    case OneBySlug => " WHERE slug = ? LIMIT 1"
  }

  function SelectSql(s: Select): string {
    "SELECT " + Join(DoubleQuoted(s.columns), ", ") + " FROM \"" + s.table + "\"" + ClauseSql(s.clause)
  }

  /** `dataset.hasSlug ? ['slug', ...keys] : keys` */
  function SelectColumns(hasSlug: bool, keys: seq<string>): seq<string> {
    if hasSlug then ["slug"] + keys else keys
  }

  /**
   * The query both row readers build: the table is checked first, then each
   * column key in order; no columns means no query at all.
   */
  function RowsSelect(dataset: DatasetMeta, clause: Clause): (r: Result<Option<Select>, ReadError>)
    ensures !Safe(dataset.tableName) ==> r == Err(UnsafeIdentifier(dataset.tableName))
    ensures r.Ok? <==> Safe(dataset.tableName) && forall i :: 0 <= i < |dataset.columns| ==> Safe(dataset.columns[i].key)
    ensures r.Ok? ==> (r.value.None? <==> dataset.columns == [])
    ensures r.Ok? && r.value.Some? ==>
      && r.value.value.table == dataset.tableName
      && r.value.value.clause == clause
      && |r.value.value.columns| == |dataset.columns| + (if dataset.hasSlug then 1 else 0)
      && (dataset.hasSlug ==> r.value.value.columns[0] == "slug")
      && forall i :: 0 <= i < |dataset.columns| ==>
           r.value.value.columns[i + (if dataset.hasSlug then 1 else 0)] == dataset.columns[i].key
  {
    match EnsureIdentifier(dataset.tableName)
    case Err(e) => Err(e)
    case Ok(table) =>
      match EnsureKeys(dataset.columns)
      case Err(e) => Err(e)
      case Ok(keys) =>
        if |keys| == 0 then Ok(None)
        else
          SelectColumnsAt(dataset.hasSlug, dataset.columns);
          Ok(Some(Select(SelectColumns(dataset.hasSlug, keys), table, clause)))
  }

  /** The selected columns are the slug when there is one, then every key at its shifted position. */
  lemma SelectColumnsAt(hasSlug: bool, columns: seq<Column>)
    ensures var c := SelectColumns(hasSlug, Keys(columns));
      && |c| == |columns| + (if hasSlug then 1 else 0)
      && (hasSlug ==> c[0] == "slug")
      && forall i :: 0 <= i < |columns| ==> c[i + (if hasSlug then 1 else 0)] == columns[i].key
  {
  }

  /** `getDatasetRows`: the rows of the dataset's table in `row_order`, or the identifier throw. */
  function GetDatasetRows(db: AllRows, dataset: DatasetMeta): (r: Result<seq<Row>, ReadError>)
    ensures r.Ok? <==> RowsSelect(dataset, AllByRowOrder).Ok?
    ensures r.Err? ==> r == Err(RowsSelect(dataset, AllByRowOrder).error)
    ensures r.Ok? && dataset.columns == [] ==> r.value == []
    ensures r.Ok? && dataset.columns != [] ==>
      var q := Query(SelectSql(RowsSelect(dataset, AllByRowOrder).value.value), []);
      r.value == (if db(q).Some? then db(q).value else [])
  {
    match RowsSelect(dataset, AllByRowOrder)
    case Err(e) => Err(e)
    case Ok(None) => Ok([])
    case Ok(Some(s)) => Ok(db(Query(SelectSql(s), [])).GetOr([]))
  }

  /** `getDatasetRowBySlug`: the slug travels only as a bound parameter. */
  function GetDatasetRowBySlug(db: FirstRow, dataset: DatasetMeta, slug: string): (r: Result<Option<Row>, ReadError>)
    ensures r.Ok? <==> RowsSelect(dataset, OneBySlug).Ok?
    ensures r.Err? ==> r == Err(RowsSelect(dataset, OneBySlug).error)
    ensures r.Ok? && dataset.columns == [] ==> r.value == None
    ensures r.Ok? && dataset.columns != [] ==>
      r.value == db(Query(SelectSql(RowsSelect(dataset, OneBySlug).value.value), [slug]))
  {
    match RowsSelect(dataset, OneBySlug)
    case Err(e) => Err(e)
    case Ok(None) => Ok(None)
    case Ok(Some(s)) => Ok(db(Query(SelectSql(s), [slug])))
  }

  /** With no declared columns neither reader consults the database. */
  lemma NoColumnsNoQuery(db1: AllRows, db2: AllRows, first1: FirstRow, first2: FirstRow, dataset: DatasetMeta, slug: string)
    requires dataset.columns == []
    ensures GetDatasetRows(db1, dataset) == GetDatasetRows(db2, dataset)
    ensures GetDatasetRowBySlug(first1, dataset, slug) == GetDatasetRowBySlug(first2, dataset, slug)
  {
  }

  // ---------------------------------------------------------------- what the SQL text names

  predicate NoQuote(s: string) {
    forall i :: 0 <= i < |s| ==> s[i] != '"'
  }

  /** A safe identifier cannot close the double quotes around it. */
  lemma SafeNoQuote(s: string)
    requires Safe(s)
    ensures NoQuote(s)
  {
  }

  /**
   * The names a reader of SQL text finds between double quotes, in order
   * (an unterminated quote runs to the end). This is the independent reading
   * the query builders are checked against.
   */
  function QuotedNames(s: string): seq<string>
    decreases |s|
  {
    var k := IndexOf(s, '"');
    if k == |s| then []
    else
      var rest := s[k + 1..];
      var e := IndexOf(rest, '"');
      if e == |rest| then [rest]
      else [rest[..e]] + QuotedNames(rest[e + 1..])
  }

  lemma QuoteAfter(pre: string, post: string)
    requires NoQuote(pre)
    ensures IndexOf(pre + "\"" + post, '"') == |pre|
  {
    var s := pre + "\"" + post;
    assert s[|pre|] == '"';
    assert forall i :: 0 <= i < |pre| ==> s[i] == pre[i];
  }

  lemma QuotedNamesCons(pre: string, name: string, post: string)
    requires NoQuote(pre) && NoQuote(name)
    ensures QuotedNames(pre + "\"" + name + "\"" + post) == [name] + QuotedNames(post)
  {
    var s := pre + "\"" + name + "\"" + post;
    var tail := name + "\"" + post;
    assert s == pre + "\"" + tail;
    QuoteAfter(pre, tail);
    assert s[|pre| + 1..] == tail;
    QuoteAfter(name, post);
    assert tail[..|name|] == name;
    assert tail[|name| + 1..] == post;
  }

  lemma QuotedNamesNone(s: string)
    requires NoQuote(s)
    ensures QuotedNames(s) == []
  {
  }

  /** A comma-separated list of quoted names contributes exactly those names. */
  lemma {:induction false} QuotedNamesJoin(pre: string, names: seq<string>, post: string)
    requires NoQuote(pre) && names != []
    requires forall i :: 0 <= i < |names| ==> NoQuote(names[i])
    ensures QuotedNames(pre + Join(DoubleQuoted(names), ", ") + post) == names + QuotedNames(post)
    decreases |names|
  {
    if |names| == 1 {
      QuotedNamesJoinOne(pre, names, post);
    } else {
      QuotedNamesJoin(", ", names[1..], post);
      QuotedNamesJoinStep(pre, names, post);
    }
  }

  lemma QuotedNamesJoinOne(pre: string, names: seq<string>, post: string)
    requires NoQuote(pre) && |names| == 1 && NoQuote(names[0])
    ensures QuotedNames(pre + Join(DoubleQuoted(names), ", ") + post) == names + QuotedNames(post)
  {
    assert pre + Join(DoubleQuoted(names), ", ") + post == pre + "\"" + names[0] + "\"" + post;
    QuotedNamesCons(pre, names[0], post);
    assert names == [names[0]];
  }

  lemma QuotedNamesJoinStep(pre: string, names: seq<string>, post: string)
    requires NoQuote(pre) && |names| > 1 && NoQuote(names[0])
    requires QuotedNames(", " + Join(DoubleQuoted(names[1..]), ", ") + post) == names[1..] + QuotedNames(post)
    ensures QuotedNames(pre + Join(DoubleQuoted(names), ", ") + post) == names + QuotedNames(post)
  {
    QuotedNamesJoinHead(pre, names, post);
    ConsAppend(names, QuotedNames(post));
  }

  lemma ConsAppend<T>(s: seq<T>, u: seq<T>)
    requires s != []
    ensures [s[0]] + (s[1..] + u) == s + u
  {
    assert s == [s[0]] + s[1..];
  }

  lemma QuotedNamesJoinHead(pre: string, names: seq<string>, post: string)
    requires NoQuote(pre) && |names| > 1 && NoQuote(names[0])
    ensures QuotedNames(pre + Join(DoubleQuoted(names), ", ") + post)
      == [names[0]] + QuotedNames(", " + Join(DoubleQuoted(names[1..]), ", ") + post)
  {
    var more := ", " + Join(DoubleQuoted(names[1..]), ", ") + post;
    QuotedNamesJoinSplit(pre, names, post);
    QuotedNamesCons(pre, names[0], more);
  }

  lemma QuotedNamesJoinSplit(pre: string, names: seq<string>, post: string)
    requires |names| > 1
    ensures pre + Join(DoubleQuoted(names), ", ") + post
      == pre + "\"" + names[0] + "\"" + (", " + Join(DoubleQuoted(names[1..]), ", ") + post)
  {
    var q := DoubleQuoted(names);
    assert q[1..] == DoubleQuoted(names[1..]);
    assert Join(q, ", ") == q[0] + ", " + Join(q[1..], ", ");
  }

  /** Quoted names inside a fixed frame of unquoted text. */
  lemma QuotedNamesFrame(head: string, names: seq<string>, middle: string, table: string, tail: string)
    requires NoQuote(head) && NoQuote(middle) && NoQuote(tail) && NoQuote(table) && names != []
    requires forall i :: 0 <= i < |names| ==> NoQuote(names[i])
    ensures QuotedNames(head + Join(DoubleQuoted(names), ", ") + (middle + "\"" + table + "\"" + tail))
      == names + [table]
  {
    QuotedNamesJoin(head, names, middle + "\"" + table + "\"" + tail);
    QuotedNamesCons(middle, table, tail);
    QuotedNamesNone(tail);
  }

  /** The text of a `SELECT` names its columns and then its table, and nothing else is quoted. */
  lemma SelectSqlNames(s: Select)
    requires s.columns != [] && NoQuote(s.table)
    requires forall i :: 0 <= i < |s.columns| ==> NoQuote(s.columns[i])
    ensures QuotedNames(SelectSql(s)) == s.columns + [s.table]
  {
    var head, middle, tail := "SELECT ", " FROM ", ClauseSql(s.clause);
    assert NoQuote(head) && NoQuote(middle) && NoQuote(tail);
    assert SelectSql(s) == head + Join(DoubleQuoted(s.columns), ", ") + (middle + "\"" + s.table + "\"" + tail);
    QuotedNamesFrame(head, s.columns, middle, s.table, tail);
  }

  /**
   * Once both readers' checks pass, the query text quotes exactly the
   * selected columns (`slug` first when the dataset has slugs) and the table:
   * no catalog value can widen or break out of the statement.
   */
  lemma RowsSelectNames(dataset: DatasetMeta, clause: Clause)
    requires RowsSelect(dataset, clause).Ok? && RowsSelect(dataset, clause).value.Some?
    ensures QuotedNames(SelectSql(RowsSelect(dataset, clause).value.value))
      == SelectColumns(dataset.hasSlug, Keys(dataset.columns)) + [dataset.tableName]
  {
    var s := RowsSelect(dataset, clause).value.value;
    var keys := Keys(dataset.columns);
    assert s.columns == SelectColumns(dataset.hasSlug, keys) by {
      assert EnsureKeys(dataset.columns).value == keys;
    }
    assert forall i :: 0 <= i < |s.columns| ==> NoQuote(s.columns[i]) by {
      forall i | 0 <= i < |s.columns|
        ensures NoQuote(s.columns[i])
      {
        if !(dataset.hasSlug && i == 0) {
          var k := if dataset.hasSlug then i - 1 else i;
          SafeNoQuote(dataset.columns[k].key);
        }
      }
    }
    assert NoQuote(s.table) by {
      SafeNoQuote(dataset.tableName);
    }
    SelectSqlNames(s);
  }

  // ---------------------------------------------------------------- written, then read

  /** A name with a space in it fails the identifier check. */
  lemma SpaceUnsafe(s: string)
    requires ' ' in s
    ensures !Safe(s)
  {
    var k :| 0 <= k < |s| && s[k] == ' ';
    assert !IsIdentChar(s[k]);
  }

  /**
   * The catalog entry the import script writes for an ordinary sheet with
   * labelled headers reads back with the same columns and table, every
   * column key passing the reader's identifier check.
   */
  lemma GeneratedMetaReads(sheet: SeedGen.Sheet, index: nat, decode: Decoder)
    requires sheet.name != SeedGen.PrimarySheet
    requires forall i :: 0 <= i < |sheet.headers| ==> sheet.headers[i] != ""
    requires decode(ColumnsJsonText(SeedGen.SheetColumns(sheet))) == Parsed(ColumnsJsonValue(SeedGen.SheetColumns(sheet)))
    ensures var d := MetaFromRow(StoredRow(SeedGen.SheetMeta(sheet, index)), decode);
      && d.columns == SeedGen.SheetColumns(sheet)
      && d.tableName == SeedGen.TableName(sheet.name)
      && d.hasSlug
      && forall i :: 0 <= i < |d.columns| ==> Safe(d.columns[i].key)
  {
    var m := SeedGen.SheetMeta(sheet, index);
    var columns := SeedGen.SheetColumns(sheet);
    SeedGen.SheetMetaWellFormed(sheet, index);
    assert m.columns == columns;
    forall i | 0 <= i < |columns|
      ensures NonBlankColumn(columns[i]) && Safe(columns[i].key)
    {
      SnakeIsSafe(columns[i].key);
    }
    NonBlankKeepsComplete(columns);
    assert NoEmptyName(m.primaryColumn);
    assert NoEmptyName(m.priceColumn);
    MetaRoundTrip(m, decode);
  }

  /**
   * The catalog entry the import script writes for an ordinary sheet with
   * labelled headers reads back with the same columns and table. It passes
   * the reader's identifier checks exactly when the sheet is not named after
   * an inherited object member (whose table name is the member's text, with
   * spaces in it); when it passes, a query is built exactly when the sheet
   * has rows and headers.
   */
  lemma GeneratedCatalogReadable(sheet: SeedGen.Sheet, index: nat, decode: Decoder)
    requires sheet.name != SeedGen.PrimarySheet
    requires forall i :: 0 <= i < |sheet.headers| ==> sheet.headers[i] != ""
    requires decode(ColumnsJsonText(SeedGen.SheetColumns(sheet))) == Parsed(ColumnsJsonValue(SeedGen.SheetColumns(sheet)))
    ensures var d := MetaFromRow(StoredRow(SeedGen.SheetMeta(sheet, index)), decode);
      && d.columns == SeedGen.SheetColumns(sheet)
      && d.tableName == SeedGen.TableName(sheet.name)
      && d.hasSlug
      && (RowsSelect(d, AllByRowOrder).Ok? <==> sheet.name !in SeedGen.InheritedNames)
      && (sheet.name in SeedGen.InheritedNames ==> RowsSelect(d, AllByRowOrder) == Err(UnsafeIdentifier(d.tableName)))
      && (RowsSelect(d, AllByRowOrder).Ok? ==>
            (RowsSelect(d, AllByRowOrder).value.Some? <==> |sheet.rows| > 0 && sheet.headers != []))
  {
    var d := MetaFromRow(StoredRow(SeedGen.SheetMeta(sheet, index)), decode);
    GeneratedMetaReads(sheet, index, decode);
    SeedGen.TableNameShape(sheet.name);
    if sheet.name in SeedGen.InheritedNames {
      SpaceUnsafe(d.tableName);
    } else {
      SnakeIsSafe(d.tableName);
    }
  }
}
