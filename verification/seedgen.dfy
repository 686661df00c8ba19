/**
 * The pure core of the import script: worksheets in, the schema script and
 * the seed script out, each as the ordered sequence of SQL statements that
 * the script joins with newlines. Reading the workbook and writing the files
 * are left to the caller.
 */
module SeedGen {
  import opened Wrappers
  import opened Text
  import opened JsNumber
  import opened Cells
  import opened Identifiers
  import opened Dedup
  import opened SqlText
  import opened Coercion
  import opened Json
  import opened Catalog
  import opened Statements

  /**
   * One worksheet as the xlsx reader hands it over: its name, the keys of its
   * first row object (`Object.keys(sheetRows[0])`, in that order) and its rows.
   */
  datatype Sheet = Sheet(name: string, headers: seq<string>, rows: seq<Row>)

  /** The worksheet whose shape is known in advance. */
  const PrimarySheet := "TWS"
  const TwsTable := "tws_products"

  /**
   * The names a plain object literal inherits from `Object.prototype`: looking
   * one of them up in the override table finds the inherited member, never
   * `undefined`, so `??` keeps it.
   */
  const InheritedNames: seq<string> := [
    "constructor", "__defineGetter__", "__defineSetter__", "hasOwnProperty",
    "__lookupGetter__", "__lookupSetter__", "isPrototypeOf", "propertyIsEnumerable",
    "toString", "valueOf", "__proto__", "toLocaleString"
  ]

  /** `String(...)` of an inherited member: `Object.prototype` itself for `__proto__`, a native function otherwise. */
  function InheritedText(name: string): (r: string)
    ensures ' ' in r
  {
    if name == "__proto__" then "[object Object]"
    else if name == "constructor" then "function Object() { [native code] }"
    else
      var t := "function " + name + "() { [native code] }";
      assert t[8] == ' ';
      t
  }

  /** `TABLE_OVERRIDES[sheet] ?? toSnake(sheet)` */
  function TableName(sheet: string): string {
    if sheet == PrimarySheet then TwsTable
    else if sheet in InheritedNames then InheritedText(sheet)
    else ToSnake(sheet)
  }

  /**
   * The primary sheet gets its fixed table; a sheet named after an inherited
   * member gets that member's text, which is never an identifier; every other
   * sheet gets a snake-shaped name.
   */
  lemma TableNameShape(sheet: string)
    ensures sheet == PrimarySheet ==> TableName(sheet) == TwsTable
    ensures SnakeShape(TableName(sheet)) <==> sheet !in InheritedNames
    ensures sheet in InheritedNames ==> ' ' in TableName(sheet)
  {
    var r := TableName(sheet);
    if sheet == PrimarySheet {
      assert TwsTable[3] == '_';
    } else if sheet in InheritedNames {
      var k :| 0 <= k < |r| && r[k] == ' ';
      assert !IsLowerAlnum(r[k]);
    } else {
      ToSnakeShape(sheet);
    }
  }

  /** A sheet named `constructor` gets the text of the `Object` constructor as its table name. */
  lemma ConstructorTableName()
    ensures TableName("constructor") == "function Object() { [native code] }"
  {
  }

  // ---------------------------------------------------------------- columns

  const PrimaryColumnHints: seq<string> := [
    "tws", "iem", "headphone_video_review", "headphone", "dac", "speaker", "microphone",
    "soundcard", "cable", "kabel", "eartips", "dap", "headphone_amp", "soundbar"
  ]

  /** `columns.find((column) => column.key === key)` succeeds. */
  predicate HasKey(columns: seq<Column>, key: string) {
    exists i | 0 <= i < |columns| :: columns[i].key == key
  }

  /**
   * The first hint (in hint order) that is a column key, else the first
   * column key, else nothing.
   */
  function PickByHints(columns: seq<Column>, hints: seq<string>): (r: Option<string>)
    ensures r.Some? <==> |columns| > 0
    ensures r.Some? ==> HasKey(columns, r.value)
    ensures forall h :: 0 <= h < |hints| && HasKey(columns, hints[h]) ==>
      r.Some? && exists k :: 0 <= k <= h && r.value == hints[k]
    ensures (forall h :: 0 <= h < |hints| ==> !HasKey(columns, hints[h])) && |columns| > 0 ==>
      r == Some(columns[0].key)
  {
    if hints == [] then (if columns == [] then None else Some(columns[0].key))
    else if HasKey(columns, hints[0]) then Some(hints[0])
    else
      var r := PickByHints(columns, hints[1..]);
      HintWitnessShift(columns, hints, r);
      r
  }

  /** A hint found in the tail was found at one position later in the whole list. */
  lemma HintWitnessShift(columns: seq<Column>, hints: seq<string>, r: Option<string>)
    requires hints != [] && !HasKey(columns, hints[0])
    requires forall h :: 0 <= h < |hints[1..]| && HasKey(columns, hints[1..][h]) ==>
      r.Some? && exists k :: 0 <= k <= h && r.value == hints[1..][k]
    ensures forall h :: 0 <= h < |hints| && HasKey(columns, hints[h]) ==>
      r.Some? && exists k :: 0 <= k <= h && r.value == hints[k]
    ensures (forall h :: 0 <= h < |hints| ==> !HasKey(columns, hints[h])) ==>
      (forall h :: 0 <= h < |hints[1..]| ==> !HasKey(columns, hints[1..][h]))
  {
    forall h | 0 <= h < |hints| && HasKey(columns, hints[h])
      ensures r.Some? && exists k :: 0 <= k <= h && r.value == hints[k]
    {
      assert h >= 1 && hints[1..][h - 1] == hints[h];
      var k :| 0 <= k <= h - 1 && r.value == hints[1..][k];
      assert r.value == hints[k + 1];
    }
    if forall h :: 0 <= h < |hints| ==> !HasKey(columns, hints[h]) {
      forall h | 0 <= h < |hints[1..]| ensures !HasKey(columns, hints[1..][h]) {
        assert hints[1..][h] == hints[h + 1];
      }
    }
  }

  /** `pickPrimaryColumn` */
  function PickPrimaryColumn(columns: seq<Column>): Option<string> {
    PickByHints(columns, PrimaryColumnHints)
  }

  /** `pickPriceColumn`: the first key containing `price`, else nothing. */
  function PickPriceColumn(columns: seq<Column>): (r: Option<string>)
    ensures r.Some? ==>
      exists i :: (0 <= i < |columns| && columns[i].key == r.value && Contains(r.value, "price") &&
                   forall j :: 0 <= j < i ==> !Contains(columns[j].key, "price"))
    ensures r.None? ==> forall i :: 0 <= i < |columns| ==> !Contains(columns[i].key, "price")
  {
    if columns == [] then None
    else if ContainsAt(columns[0].key, "price") then Some(columns[0].key)
    else
      var r := PickPriceColumn(columns[1..]);
      assert forall i :: 1 <= i < |columns| ==> columns[1..][i - 1] == columns[i];
      r
  }

  /** One entry of the hand-written column map of the primary sheet. */
  datatype TwsField = TwsField(key: string, title: string, source: string, numeric: bool)

  const TwsColumnMap: seq<TwsField> := [
    TwsField("tier", "Tier", "Tier", false),
    TwsField("price_performance", "Value for Money", "Value for Money", false),
    TwsField("name", "TWS", "TWS", false),
    TwsField("price_idr", "Price", "Price", true),
    TwsField("microphone_performance", "Microphone Test", "Microphone Test", false),
    TwsField("review_summary", "Review Notes", "Review Notes", false),
    TwsField("bluetooth_codec", "Bluetooth Codec", "Bluetooth Codec", false),
    TwsField("battery_life", "Battery Life (No ANC)", "Battery Life (No ANC)", false),
    TwsField("anc_level", "ANC Performance (dB)", "ANC Performance (dB)", false),
    TwsField("transparency_mode", "Transparency Mode", "Transparency Mode", false),
    TwsField("equalizer_type", "Equalizer", "Equalizer", false),
    TwsField("overall_sound_score", "Overall Sound Quality", "Overall Sound Quality", true),
    TwsField("bass_score", "Bass", "Bass", true),
    TwsField("low_mid_score", "Lo Mid", "Lo Mid", true),
    TwsField("high_mid_score", "Hi Mid", "Hi Mid", true),
    TwsField("treble_score", "Treble", "Treble", true),
    TwsField("vocal_score", "Vocal", "Vocal", true),
    TwsField("soundstage_score", "Soundstage", "Soundstage", true),
    TwsField("separation_score", "Separation", "Separation", true),
    TwsField("imaging_score", "Imaging", "Imaging", true),
    TwsField("timbre_score", "Timbre", "Timbre", true),
    TwsField("punch_score", "Punch", "Punch", true),
    TwsField("clarity_score", "Clarity & Resolution", "Clarity & Resolution", true),
    TwsField("gaming_mode", "Gaming Mode Low Latency", "Gaming Mode Low Latency", false),
    TwsField("sound_tuning", "Sound Tuning", "Sound Tuning", false),
    TwsField("ip_rating", "IP Rating", "IP Rating", false),
    TwsField("multipoint", "Multipoint Connection", "Multipoint Connection", false),
    TwsField("recommended_eartips", "Recommended Eartips", "Recommended Eartips", false)
  ]

  /** The columns of `tws_products`, in insert order. */
  const TwsTableColumns: seq<string> := [
    "slug", "name", "highlights", "tier", "price_performance", "price_idr",
    "microphone_performance", "review_summary", "bluetooth_codec", "battery_life",
    "anc_level", "transparency_mode", "equalizer_type", "overall_sound_score",
    "bass_score", "low_mid_score", "high_mid_score", "treble_score", "vocal_score",
    "soundstage_score", "separation_score", "imaging_score", "timbre_score",
    "punch_score", "clarity_score", "gaming_mode", "sound_tuning", "ip_rating",
    "multipoint", "recommended_eartips"
  ]

  /** The primary sheet's catalog columns: one per mapped field. */
  function TwsColumns(): (r: seq<Column>)
    ensures |r| == |TwsColumnMap|
    ensures forall i :: 0 <= i < |r| ==> r[i] == Column(TwsColumnMap[i].key, TwsColumnMap[i].title)
  {
    seq(|TwsColumnMap|, i requires 0 <= i < |TwsColumnMap| => Column(TwsColumnMap[i].key, TwsColumnMap[i].title))
  }

  /** Every catalog column of the primary sheet is labelled and is a column of `tws_products`. */
  lemma TwsColumnsInTable()
    ensures forall i :: 0 <= i < |TwsColumns()| ==> TwsColumns()[i].key in TwsTableColumns && TwsColumns()[i].title != ""
  {
  }

  /** The headers the script looks at: those of the first row, or none for an empty sheet. */
  function UsedHeaders(sheet: Sheet): seq<string> {
    if |sheet.rows| > 0 then sheet.headers else []
  }

  function SnakeHeaders(headers: seq<string>): (r: seq<string>)
    ensures |r| == |headers|
    ensures forall i :: 0 <= i < |r| ==> r[i] == ToSnake(headers[i])
  {
    seq(|headers|, i requires 0 <= i < |headers| => ToSnake(headers[i]))
  }

  function ZipColumns(keys: seq<string>, titles: seq<string>): (r: seq<Column>)
    requires |keys| == |titles|
    ensures |r| == |keys|
    ensures forall i :: 0 <= i < |r| ==> r[i] == Column(keys[i], titles[i])
  {
    seq(|keys|, i requires 0 <= i < |keys| => Column(keys[i], titles[i]))
  }

  /**
   * Generic column derivation: each header through `toSnake`, then
   * `uniqueKeys`. Column `i` is labelled with header `i` and has a
   * snake-shaped key.
   */
  function SheetColumns(sheet: Sheet): (r: seq<Column>)
    ensures |r| == |UsedHeaders(sheet)|
    ensures forall i :: 0 <= i < |r| ==> r[i].title == UsedHeaders(sheet)[i] && SnakeShape(r[i].key)
  {
    var headers := UsedHeaders(sheet);
    UniqueKeysSpec(SnakeHeaders(headers));
    UniqueSnakeKeys(headers);
    ZipColumns(UniqueKeys(SnakeHeaders(headers)), headers)
  }

  // ---------------------------------------------------------------- catalog rows

  /** A `dataset_meta` row as the script builds it (`columns` is stored as JSON text). */
  datatype MetaRow = MetaRow(
    key: string,
    title: string,
    tableName: string,
    columns: seq<Column>,
    rowCount: nat,
    sortOrder: nat,
    primaryColumn: Option<string>,
    priceColumn: Option<string>,
    hasSlug: nat)

  /** The catalog row of the sheet at position `index`. */
  function SheetMeta(sheet: Sheet, index: nat): MetaRow {
    if sheet.name == PrimarySheet then
      MetaRow("tws", sheet.name, TwsTable, TwsColumns(), |sheet.rows|, index + 1, Some("name"), Some("price_idr"), 1)
    else
      var columns := SheetColumns(sheet);
      MetaRow(ToSnake(sheet.name), sheet.name, TableName(sheet.name), columns, |sheet.rows|, index + 1,
              PickPrimaryColumn(columns), PickPriceColumn(columns), 1)
  }

  function OptionCell(v: Option<string>): Cell {
    if v.Some? then Str(v.value) else Null
  }

  const MetaColumns: seq<string> := [
    "key", "label", "table_name", "columns_json", "row_count", "sort_order", "primary_column", "price_column", "has_slug"
  ]

  function MetaInsert(m: MetaRow): Statement {
    Insert(true, "dataset_meta", MetaColumns, [
      ToSqlValue(Str(m.key)), ToSqlValue(Str(m.title)), ToSqlValue(Str(m.tableName)),
      ToSqlValue(Str(ColumnsJsonText(m.columns))), NatText(m.rowCount), NatText(m.sortOrder),
      ToSqlValue(OptionCell(m.primaryColumn)), ToSqlValue(OptionCell(m.priceColumn)), NatText(m.hasSlug)
    ])
  }

  // ---------------------------------------------------------------- slugs

  /**
   * `slugify(source || fallback) || fallback`: a truthy source whose slug is
   * not empty gives that slug; a truthy source whose slug is empty gives the
   * fallback as it is; a falsy source gives the fallback's slug, or the
   * fallback when that slug is empty.
   */
  function SlugBase(source: Cell, fallback: string): (r: string)
    ensures fallback != "" ==> r != ""
    ensures r == fallback || (r != "" && SlugShape(r))
    ensures Truthy(source) && Slugify(CellText(source)) != "" ==> r == Slugify(CellText(source))
    ensures Truthy(source) && Slugify(CellText(source)) == "" ==> r == fallback
    ensures !Truthy(source) ==> r == (if Slugify(fallback) != "" then Slugify(fallback) else fallback)
  {
    var raw := if Truthy(source) then CellText(source) else fallback;
    SlugifyShape(raw);
    var baseSlug := Slugify(raw);
    if baseSlug != "" then baseSlug else fallback
  }

  /**
   * A name that is already a slug is its own base; a row without a name, or
   * whose name has no slug, gets a slug-shaped fallback unchanged.
   */
  lemma SlugBaseOfName(source: Cell, fallback: string)
    requires fallback != "" && SlugShape(fallback)
    ensures source.Str? && source.s != "" && SlugShape(source.s) ==> SlugBase(source, fallback) == source.s
    ensures !Truthy(source) || Slugify(CellText(source)) == "" ==> SlugBase(source, fallback) == fallback
  {
    SlugifyFixed(fallback);
    if source.Str? && SlugShape(source.s) {
      SlugifyFixed(source.s);
    }
  }

  /** The per-row fallback `${prefix}-${rowIndex + 1}`. */
  function RowFallback(prefix: string, rowIndex: nat): string {
    prefix + "-" + NatText(rowIndex + 1)
  }

  /** `row[headers[idx]]` stored under `columns[idx].key`, in column order (a later equal key overwrites). */
  function RowData(columns: seq<Column>, headers: seq<string>, row: Row): Row
    requires |columns| == |headers|
  {
    if columns == [] then map[]
    else
      var n := |columns| - 1;
      RowData(columns[..n], headers[..n], row)[columns[n].key := Get(row, headers[n])]
  }

  /** `primaryColumn ? rowData[primaryColumn] : headers[0]` */
  function SlugSource(primary: Option<string>, headers: seq<string>, data: Row): Cell {
    if primary.Some? && primary.value != "" then Get(data, primary.value)
    else if |headers| > 0 then Str(headers[0])
    else Undefined
  }

  /** The source row `j` of a generic sheet as stored: column key to cell. */
  function GenericRowData(sheet: Sheet, j: nat): Row
    requires j < |sheet.rows|
  {
    RowData(SheetColumns(sheet), UsedHeaders(sheet), sheet.rows[j])
  }

  /** The slug base of row `j`, before de-duplication. */
  function RowSlugBase(sheet: Sheet, j: nat): string
    requires j < |sheet.rows|
  {
    if sheet.name == PrimarySheet then SlugBase(Get(sheet.rows[j], "TWS"), RowFallback("tws", j))
    else
      var primary := PickPrimaryColumn(SheetColumns(sheet));
      SlugBase(SlugSource(primary, UsedHeaders(sheet), GenericRowData(sheet, j)), RowFallback(TableName(sheet.name), j))
  }

  function SlugBases(sheet: Sheet): (r: seq<string>)
    ensures |r| == |sheet.rows|
    ensures forall j :: 0 <= j < |r| ==> r[j] == RowSlugBase(sheet, j)
  {
    seq(|sheet.rows|, j requires 0 <= j < |sheet.rows| => RowSlugBase(sheet, j))
  }

  /** `uniqueSlug` with a counter that is fresh for every sheet. */
  function SheetSlugs(sheet: Sheet): (r: seq<string>)
    ensures |r| == |sheet.rows|
  {
    ClaimAll(map[], SlugBases(sheet), '-').0
  }

  // ---------------------------------------------------------------- statements

  function QuotedKeys(keys: seq<string>): (r: seq<string>)
    ensures |r| == |keys|
    ensures forall i :: 0 <= i < |r| ==> r[i] == QuoteId(keys[i])
  {
    seq(|keys|, i requires 0 <= i < |keys| => QuoteId(keys[i]))
  }

  /**
   * A list interpolated after a literal `, `: when it is empty the separator
   * is still there, which this models as one empty item.
   */
  function Trailing(items: seq<string>): (r: seq<string>)
    ensures |r| == if items == [] then 1 else |items|
  {
    if items == [] then [""] else items
  }

  /** The cell a `tws_products` column receives for one source row. */
  function TwsFieldValue(row: Row, f: TwsField): Cell {
    var raw := Get(row, f.source);
    if f.key == "name" then (if IsNullish(raw) then Str("") else raw)
    else if f.numeric then (match ToNumber(raw) case Some(d) => NumCell(d) case None => Null)
    else raw
  }

  /** The column map's fields of the `mapped` object (their keys are distinct, so the order of assignment is immaterial). */
  function FieldsMapped(row: Row, fields: seq<TwsField>): Row {
    if fields == [] then map[]
    else FieldsMapped(row, fields[1..])[fields[0].key := TwsFieldValue(row, fields[0])]
  }

  /** The `mapped` object of the primary sheet: the column map's fields, `slug` and an empty `highlights`. */
  function TwsMapped(row: Row, slug: string): Row {
    FieldsMapped(row, TwsColumnMap)["slug" := Str(slug)]["highlights" := Str("")]
  }

  /** The SQL literals of one `tws_products` row, in column order. */
  function TwsValues(mapped: Row): (r: seq<string>)
    ensures |r| == |TwsTableColumns|
    ensures forall i :: 0 <= i < |r| ==> r[i] == ToSqlValue(Get(mapped, TwsTableColumns[i]))
  {
    seq(|TwsTableColumns|, i requires 0 <= i < |TwsTableColumns| => ToSqlValue(Get(mapped, TwsTableColumns[i])))
  }

  function TwsInsert(row: Row, rowIndex: nat, slug: string): Statement {
    Insert(true, QuoteId(TwsTable), ["row_order"] + QuotedKeys(TwsTableColumns),
           [NatText(rowIndex + 1)] + TwsValues(TwsMapped(row, slug)))
  }

  /** The SQL literals of one generic row, in column order. */
  function GenericValues(columns: seq<Column>, data: Row): (r: seq<string>)
    ensures |r| == |columns|
    ensures forall i :: 0 <= i < |r| ==> r[i] == ToSqlValue(Get(data, columns[i].key))
  {
    seq(|columns|, i requires 0 <= i < |columns| => ToSqlValue(Get(data, columns[i].key)))
  }

  function GenericInsert(table: string, columns: seq<Column>, rowIndex: nat, slug: string, data: Row): Statement {
    Insert(false, QuoteId(table), ["row_order", "slug"] + Trailing(QuotedKeys(Keys(columns))),
           [NatText(rowIndex + 1), ToSqlValue(Str(slug))] + Trailing(GenericValues(columns, data)))
  }

  /** The insert statement of row `j` of a sheet. */
  function RowInsert(sheet: Sheet, j: nat): Statement
    requires j < |sheet.rows|
  {
    var slug := SheetSlugs(sheet)[j];
    if sheet.name == PrimarySheet then TwsInsert(sheet.rows[j], j, slug)
    else GenericInsert(TableName(sheet.name), SheetColumns(sheet), j, slug, GenericRowData(sheet, j))
  }

  function RowInserts(sheet: Sheet): (r: seq<Statement>)
    ensures |r| == |sheet.rows|
    ensures forall j :: 0 <= j < |r| ==> r[j] == RowInsert(sheet, j)
  {
    seq(|sheet.rows|, j requires 0 <= j < |sheet.rows| => RowInsert(sheet, j))
  }

  /** The seed statements one sheet contributes: clear its table, then one insert per row. */
  function SheetSeed(sheet: Sheet): (r: seq<Statement>)
    ensures |r| == |sheet.rows| + 1
  {
    [DeleteFrom(QuoteId(TableName(sheet.name)))] + RowInserts(sheet)
  }

  const CreateMeta := CreateTable("dataset_meta", [
    "key TEXT PRIMARY KEY", "label TEXT NOT NULL", "table_name TEXT NOT NULL", "columns_json TEXT NOT NULL",
    "row_count INTEGER NOT NULL", "sort_order INTEGER NOT NULL", "primary_column TEXT", "price_column TEXT",
    "has_slug INTEGER NOT NULL DEFAULT 0"
  ])

  /** The primary table's column definitions: `REAL` for the price and the scores, `TEXT` otherwise. */
  const TwsColumnDefs: seq<string> := [
    "id INTEGER PRIMARY KEY AUTOINCREMENT", "row_order INTEGER NOT NULL", "slug TEXT", "name TEXT NOT NULL",
    "highlights TEXT", "tier TEXT", "price_performance TEXT", "price_idr REAL", "microphone_performance TEXT",
    "review_summary TEXT", "bluetooth_codec TEXT", "battery_life TEXT", "anc_level TEXT", "transparency_mode TEXT",
    "equalizer_type TEXT", "overall_sound_score REAL", "bass_score REAL", "low_mid_score REAL", "high_mid_score REAL",
    "treble_score REAL", "vocal_score REAL", "soundstage_score REAL", "separation_score REAL", "imaging_score REAL",
    "timbre_score REAL", "punch_score REAL", "clarity_score REAL", "gaming_mode TEXT", "sound_tuning TEXT",
    "ip_rating TEXT", "multipoint TEXT", "recommended_eartips TEXT"
  ]

  const CreateTws := CreateTable(QuoteId(TwsTable), TwsColumnDefs)
  const TierIndex := CreateIndex("idx_tws_products_tier", QuoteId(TwsTable), "tier")
  const ScoreIndex := CreateIndex("idx_tws_products_score", QuoteId(TwsTable), "overall_sound_score")

  function GenericColumnDefs(columns: seq<Column>): (r: seq<string>)
    ensures |r| == |columns|
  {
    seq(|columns|, i requires 0 <= i < |columns| => QuoteId(columns[i].key) + " TEXT")
  }

  /** The table of a generic sheet: surrogate id, row order, slug, then one TEXT column per key. */
  function SheetCreate(sheet: Sheet): seq<Statement> {
    if sheet.name == PrimarySheet then []
    else
      var columns := SheetColumns(sheet);
      [CreateTable(QuoteId(TableName(sheet.name)),
        ["id INTEGER PRIMARY KEY AUTOINCREMENT", "row_order INTEGER NOT NULL", "slug TEXT"] + Trailing(GenericColumnDefs(columns)))]
  }

  function Concat<T>(xss: seq<seq<T>>): seq<T> {
    if xss == [] then [] else xss[0] + Concat(xss[1..])
  }

  /** `arr.splice(at, 0, ...items)` */
  function Splice<T>(s: seq<T>, at: nat, items: seq<T>): (r: seq<T>)
    requires at <= |s|
    ensures |r| == |s| + |items|
    ensures r[..at] == s[..at] && r[at..at + |items|] == items && r[at + |items|..] == s[at..]
  {
    s[..at] + items + s[at..]
  }

  function Drops(sheets: seq<Sheet>): (r: seq<Statement>)
    ensures |r| == |sheets|
    ensures forall i :: 0 <= i < |r| ==> r[i] == DropTable(QuoteId(TableName(sheets[i].name)))
  {
    seq(|sheets|, i requires 0 <= i < |sheets| => DropTable(QuoteId(TableName(sheets[i].name))))
  }

  function CreateBlocks(sheets: seq<Sheet>): (r: seq<seq<Statement>>)
    ensures |r| == |sheets|
    ensures forall i :: 0 <= i < |r| ==> r[i] == SheetCreate(sheets[i])
  {
    seq(|sheets|, i requires 0 <= i < |sheets| => SheetCreate(sheets[i]))
  }

  function SeedBlocks(sheets: seq<Sheet>): (r: seq<seq<Statement>>)
    ensures |r| == |sheets|
    ensures forall i :: 0 <= i < |r| ==> r[i] == SheetSeed(sheets[i])
  {
    seq(|sheets|, i requires 0 <= i < |sheets| => SheetSeed(sheets[i]))
  }

  function MetaInserts(sheets: seq<Sheet>): (r: seq<Statement>)
    ensures |r| == |sheets|
    ensures forall i :: 0 <= i < |r| ==> r[i] == MetaInsert(SheetMeta(sheets[i], i))
  {
    seq(|sheets|, i requires 0 <= i < |sheets| => MetaInsert(SheetMeta(sheets[i], i)))
  }

  /** The schema script: drop everything, then create the catalog, the primary table and its indexes, then each other sheet's table. */
  function Schema(sheets: seq<Sheet>): seq<Statement> {
    SchemaWith(sheets, FixedTables)
  }

  /** The catalog table, the primary table and its two indexes, created whatever the workbook holds. */
  const FixedTables := [CreateMeta, CreateTws, TierIndex, ScoreIndex]

  function SchemaWith(sheets: seq<Sheet>, fixed: seq<Statement>): seq<Statement> {
    [DropTable("dataset_meta")] + Drops(sheets) + fixed + Concat(CreateBlocks(sheets))
  }

  /** The seed script: clear the catalog, then the sheets' blocks, with the catalog rows spliced in at position 1. */
  function Seed(sheets: seq<Sheet>): seq<Statement> {
    Splice([DeleteFrom("dataset_meta")] + Concat(SeedBlocks(sheets)), 1, MetaInserts(sheets))
  }

  /** The two generated files. */
  datatype Scripts = Scripts(schema: string, seed: string)

  /** The whole generator: every sheet in workbook order. */
  function Generate(sheets: seq<Sheet>): Scripts {
    Scripts(Script(Schema(sheets)), Script(Seed(sheets)))
  }

  // ---------------------------------------------------------------- properties

  lemma {:induction false} ConcatAt<T>(xss: seq<seq<T>>, i: nat, k: nat)
    requires i < |xss| && k < |xss[i]|
    ensures xss[i][k] in Concat(xss)
  {
    if i > 0 {
      assert xss[1..][i - 1] == xss[i];
      ConcatAt(xss[1..], i - 1, k);
    }
  }

  /** Where a member of a concatenation comes from. */
  lemma {:induction false} ConcatMember<T>(xss: seq<seq<T>>, x: T) returns (i: nat, k: nat)
    requires x in Concat(xss)
    ensures i < |xss| && k < |xss[i]| && xss[i][k] == x
  {
    if x in xss[0] {
      i := 0;
      k :| 0 <= k < |xss[0]| && xss[0][k] == x;
    } else {
      var j, m := ConcatMember(xss[1..], x);
      assert xss[1..][j] == xss[j + 1];
      i, k := j + 1, m;
    }
  }

  lemma SheetCreateTable(sheet: Sheet)
    ensures sheet.name == PrimarySheet ==> SheetCreate(sheet) == []
    ensures sheet.name != PrimarySheet ==>
      |SheetCreate(sheet)| == 1 && SheetCreate(sheet)[0].CreateTable? && SheetCreate(sheet)[0].table == QuoteId(TableName(sheet.name))
  {
  }

  lemma CreatesAreTables(sheets: seq<Sheet>)
    ensures forall x :: x in Concat(CreateBlocks(sheets)) ==> x.CreateTable?
  {
    forall x | x in Concat(CreateBlocks(sheets))
      ensures x.CreateTable?
    {
      var i, k := ConcatMember(CreateBlocks(sheets), x);
      SheetCreateTable(sheets[i]);
    }
  }

  /** Where, among the creates, the table of the `i`-th sheet is created. */
  lemma SheetTableCreated(sheets: seq<Sheet>, i: nat) returns (m: nat)
    requires i < |sheets| && sheets[i].name != PrimarySheet
    ensures var creates := Concat(CreateBlocks(sheets));
      m < |creates| && creates[m].CreateTable? && creates[m].table == QuoteId(TableName(sheets[i].name))
  {
    var creates := Concat(CreateBlocks(sheets));
    SheetCreateTable(sheets[i]);
    ConcatAt(CreateBlocks(sheets), i, 0);
    var c := CreateBlocks(sheets)[i][0];
    m :| 0 <= m < |creates| && creates[m] == c;
  }

  /** What the schema needs of its fixed part: all creates, the first two creating the catalog and the primary table. */
  predicate FixedShape(fixed: seq<Statement>) {
    && |fixed| >= 2
    && (forall k :: 0 <= k < |fixed| ==> fixed[k].CreateTable? || fixed[k].CreateIndex?)
    && fixed[0].CreateTable? && fixed[0].table == "dataset_meta"
    && fixed[1].CreateTable? && fixed[1].table == QuoteId(TwsTable)
  }

  lemma FixedTablesShape()
    ensures FixedShape(FixedTables)
  {
    FixedTablesCreate();
    FixedTablesNames();
  }

  lemma FixedTablesCreate()
    ensures forall k :: 0 <= k < |FixedTables| ==> FixedTables[k].CreateTable? || FixedTables[k].CreateIndex?
  {
    FixedTablesKinds();
    forall k | 0 <= k < |FixedTables|
      ensures FixedTables[k].CreateTable? || FixedTables[k].CreateIndex?
    {
      assert FixedTables[k] in [CreateMeta, CreateTws, TierIndex, ScoreIndex];
    }
  }

  lemma FixedTablesKinds()
    ensures CreateMeta.CreateTable? && CreateTws.CreateTable? && TierIndex.CreateIndex? && ScoreIndex.CreateIndex?
  {
  }

  lemma FixedTablesNames()
    ensures FixedTables[0].CreateTable? && FixedTables[0].table == "dataset_meta"
    ensures FixedTables[1].CreateTable? && FixedTables[1].table == QuoteId(TwsTable)
  {
  }

  lemma SchemaWithParts(sheets: seq<Sheet>, fixed: seq<Statement>)
    ensures var s := SchemaWith(sheets, fixed);
      && |s| == |sheets| + 1 + |fixed| + |Concat(CreateBlocks(sheets))|
      && s[0] == DropTable("dataset_meta")
      && (forall i :: 0 <= i < |sheets| ==> s[1 + i] == DropTable(QuoteId(TableName(sheets[i].name))))
      && s[|sheets| + 1..|sheets| + 1 + |fixed|] == fixed
      && s[|sheets| + 1 + |fixed|..] == Concat(CreateBlocks(sheets))
  {
    FourParts(DropTable("dataset_meta"), Drops(sheets), fixed, Concat(CreateBlocks(sheets)));
  }

  lemma FourParts<T>(a: T, b: seq<T>, c: seq<T>, d: seq<T>)
    ensures var s := [a] + b + c + d;
      && |s| == 1 + |b| + |c| + |d|
      && s[0] == a
      && (forall i :: 0 <= i < |b| ==> s[1 + i] == b[i])
      && s[1 + |b|..1 + |b| + |c|] == c
      && s[1 + |b| + |c|..] == d
  {
    var s := [a] + b + c + d;
    assert s[1 + |b|..1 + |b| + |c|] == c;
    assert s[1 + |b| + |c|..] == d;
  }

  lemma SchemaWithCreatesOnly(sheets: seq<Sheet>, fixed: seq<Statement>)
    requires FixedShape(fixed)
    ensures var s := SchemaWith(sheets, fixed);
      forall k :: |sheets| + 1 <= k < |s| ==> s[k].CreateTable? || s[k].CreateIndex?
  {
    SchemaWithParts(sheets, fixed);
    CreatesAreTables(sheets);
    OnlyCreatesAfter(SchemaWith(sheets, fixed), |sheets| + 1, fixed, Concat(CreateBlocks(sheets)));
  }

  /** A script whose tail is a run of creates and indexes followed by table creates holds nothing else there. */
  lemma OnlyCreatesAfter(s: seq<Statement>, n: nat, fixed: seq<Statement>, creates: seq<Statement>)
    requires n + |fixed| <= |s| && s[n..n + |fixed|] == fixed && s[n + |fixed|..] == creates
    requires forall k :: 0 <= k < |fixed| ==> fixed[k].CreateTable? || fixed[k].CreateIndex?
    requires forall x :: x in creates ==> x.CreateTable?
    ensures forall k :: n <= k < |s| ==> s[k].CreateTable? || s[k].CreateIndex?
  {
    forall k | n <= k < |s|
      ensures s[k].CreateTable? || s[k].CreateIndex?
    {
      if k < n + |fixed| {
        assert s[k] == s[n..n + |fixed|][k - n];
      } else {
        assert s[k] == s[n + |fixed|..][k - n - |fixed|];
      }
    }
  }

  lemma SchemaWithRecreates(sheets: seq<Sheet>, fixed: seq<Statement>, k: nat)
    requires FixedShape(fixed) && k <= |sheets|
    ensures var s := SchemaWith(sheets, fixed);
      exists m :: |sheets| < m < |s| && s[m].CreateTable? && s[m].table == s[k].table
  {
    if k == 0 || sheets[k - 1].name == PrimarySheet {
      FixedRecreates(sheets, fixed, k);
    } else {
      SheetRecreates(sheets, fixed, k);
    }
  }

  lemma FixedRecreates(sheets: seq<Sheet>, fixed: seq<Statement>, k: nat)
    requires FixedShape(fixed) && k <= |sheets| && (k == 0 || sheets[k - 1].name == PrimarySheet)
    ensures var s := SchemaWith(sheets, fixed);
      exists m :: |sheets| < m < |s| && s[m].CreateTable? && s[m].table == s[k].table
  {
    var s := SchemaWith(sheets, fixed);
    var n := |sheets| + 1;
    SchemaWithParts(sheets, fixed);
    if k == 0 {
      assert s[n] == s[n..n + |fixed|][0];
    } else {
      assert s[n + 1] == s[n..n + |fixed|][1];
    }
  }

  lemma SheetRecreates(sheets: seq<Sheet>, fixed: seq<Statement>, k: nat)
    requires 1 <= k <= |sheets| && sheets[k - 1].name != PrimarySheet
    ensures var s := SchemaWith(sheets, fixed);
      exists m :: |sheets| < m < |s| && s[m].CreateTable? && s[m].table == s[k].table
  {
    var m := SheetTableCreated(sheets, k - 1);
    var w := |sheets| + 1 + |fixed| + m;
    SchemaWithDropAt(sheets, fixed, k);
    SchemaWithCreateAt(sheets, fixed, m, w);
    CreatedAgain(SchemaWith(sheets, fixed), k, |sheets|, w);
  }

  lemma CreatedAgain(s: seq<Statement>, k: nat, after: nat, w: nat)
    requires after < w < |s| && k < |s| && s[w].CreateTable? && s[w].table == s[k].table
    ensures exists m :: after < m < |s| && s[m].CreateTable? && s[m].table == s[k].table
  {
  }

  lemma SchemaWithDropAt(sheets: seq<Sheet>, fixed: seq<Statement>, k: nat)
    requires 1 <= k <= |sheets|
    ensures k < |SchemaWith(sheets, fixed)|
    ensures SchemaWith(sheets, fixed)[k] == DropTable(QuoteId(TableName(sheets[k - 1].name)))
  {
    SchemaWithParts(sheets, fixed);
  }

  lemma SchemaWithCreateAt(sheets: seq<Sheet>, fixed: seq<Statement>, m: nat, w: nat)
    requires m < |Concat(CreateBlocks(sheets))| && w == |sheets| + 1 + |fixed| + m
    ensures w < |SchemaWith(sheets, fixed)|
    ensures SchemaWith(sheets, fixed)[w] == Concat(CreateBlocks(sheets))[m]
  {
    var s := SchemaWith(sheets, fixed);
    SchemaWithParts(sheets, fixed);
    assert s[w] == s[|sheets| + 1 + |fixed|..][m];
  }

  /**
   * The schema script drops the catalog and every sheet's table first, then
   * only creates; and every table it drops it creates again: the catalog, the
   * primary table and one per other sheet.
   */
  lemma SchemaDropsThenCreates(sheets: seq<Sheet>)
    ensures var s := Schema(sheets);
      && |s| >= |sheets| + 5
      && s[0] == DropTable("dataset_meta")
      && (forall i :: 0 <= i < |sheets| ==> s[1 + i] == DropTable(QuoteId(TableName(sheets[i].name))))
      && (forall k :: |sheets| + 1 <= k < |s| ==> s[k].CreateTable? || s[k].CreateIndex?)
      && (forall k :: 0 <= k <= |sheets| ==> exists m :: |sheets| < m < |s| && s[m].CreateTable? && s[m].table == s[k].table)
  {
    FixedTablesShape();
    SchemaWithParts(sheets, FixedTables);
    SchemaWithCreatesOnly(sheets, FixedTables);
    forall k | 0 <= k <= |sheets|
      ensures var s := Schema(sheets);
        exists m :: |sheets| < m < |s| && s[m].CreateTable? && s[m].table == s[k].table
    {
      SchemaWithRecreates(sheets, FixedTables, k);
    }
  }

  /**
   * The seed script clears the catalog, then writes one catalog row per sheet
   * (spliced in at position 1, before any dataset table is touched), then each
   * sheet's own block in sheet order.
   */
  lemma SeedLayout(sheets: seq<Sheet>)
    ensures var s := Seed(sheets);
      && |s| >= |sheets| + 1
      && s[0] == DeleteFrom("dataset_meta")
      && (forall i :: 0 <= i < |sheets| ==> s[1 + i] == MetaInsert(SheetMeta(sheets[i], i)))
      && s[|sheets| + 1..] == Concat(SeedBlocks(sheets))
  {
    var base := [DeleteFrom("dataset_meta")] + Concat(SeedBlocks(sheets));
    var inserts := MetaInserts(sheets);
    var s := Seed(sheets);
    assert s == Splice(base, 1, inserts);
    assert base[..1] == [DeleteFrom("dataset_meta")];
    assert base[1..] == Concat(SeedBlocks(sheets));
    assert s[..1] == base[..1] && s[1..1 + |inserts|] == inserts && s[1 + |inserts|..] == base[1..];
    assert s[0] == s[..1][0];
    forall i | 0 <= i < |sheets| ensures s[1 + i] == MetaInsert(SheetMeta(sheets[i], i)) {
      assert s[1 + i] == s[1..1 + |inserts|][i];
    }
  }

  /** Table names and column keys the script invents are always safe `toSnake` shapes. */
  lemma {:induction false} CounterShape(base: string, digits: string, sep: char)
    requires base != "" && Clean(base, sep) && Trimmed(base, sep) && !IsLowerAlnum(sep)
    requires digits != "" && AllDigits(digits)
    ensures Clean(base + [sep] + digits, sep) && Trimmed(base + [sep] + digits, sep)
    ensures (base + [sep] + digits)[0] == base[0]
  {
    var r := base + [sep] + digits;
    assert r[|base|] == sep;
    forall i | 0 <= i < |r|
      ensures IsLowerAlnum(r[i]) || r[i] == sep
    {
      if i < |base| {
        assert r[i] == base[i];
      } else if i > |base| {
        assert r[i] == digits[i - |base| - 1];
      }
    }
    forall i | 0 <= i < |r| - 1
      ensures !(r[i] == sep && r[i + 1] == sep)
    {
      if i < |base| - 1 {
        assert r[i] == base[i] && r[i + 1] == base[i + 1];
      } else if i == |base| - 1 {
        assert r[i] == base[|base| - 1];
      } else {
        assert r[i + 1] == digits[i + 1 - |base| - 1];
      }
    }
    assert r[|r| - 1] == digits[|digits| - 1];
  }

  /** De-duplicating snake-cased headers keeps every key snake-shaped. */
  lemma UniqueSnakeKeys(headers: seq<string>)
    ensures var hs := SnakeHeaders(headers);
      |UniqueKeys(hs)| == |hs| && forall i :: 0 <= i < |hs| ==> SnakeShape(UniqueKeys(hs)[i])
  {
    var hs := SnakeHeaders(headers);
    UniqueKeysSpec(hs);
    forall i | 0 <= i < |hs|
      ensures SnakeShape(UniqueKeys(hs)[i])
    {
      ToSnakeShape(headers[i]);
      var n := Occurrence(hs, i);
      if n != 1 {
        CounterShape(hs[i], NatText(n), '_');
        assert hs[i] + "_" + NatText(n) == hs[i] + ['_'] + NatText(n);
      }
    }
  }

  lemma PriceColumnIsKey(columns: seq<Column>)
    ensures PickPriceColumn(columns).Some? ==> HasKey(columns, PickPriceColumn(columns).value)
  {
    var r := PickPriceColumn(columns);
    if r.Some? {
      var i :| 0 <= i < |columns| && columns[i].key == r.value && Contains(r.value, "price") &&
        forall j :: 0 <= j < i ==> !Contains(columns[j].key, "price");
      assert columns[i].key == r.value;
    }
  }

  /**
   * The catalog row of a generic sheet at position `index`: its position as
   * `sort_order`, its row count, a snake-shaped key and column keys, a table
   * name that is snake-shaped unless the sheet is named after an inherited
   * object member, and primary and price columns that name one of its columns.
   */
  lemma SheetMetaWellFormed(sheet: Sheet, index: nat)
    requires sheet.name != PrimarySheet
    ensures var m := SheetMeta(sheet, index);
      && m.sortOrder == index + 1 && m.rowCount == |sheet.rows| && m.hasSlug == 1
      && m.title == sheet.name && m.tableName == TableName(sheet.name)
      && SnakeShape(m.key) && (SnakeShape(m.tableName) <==> sheet.name !in InheritedNames)
      && (forall i :: 0 <= i < |m.columns| ==> SnakeShape(m.columns[i].key))
      && (m.primaryColumn.Some? ==> HasKey(m.columns, m.primaryColumn.value))
      && (m.priceColumn.Some? ==> HasKey(m.columns, m.priceColumn.value))
  {
    ToSnakeShape(sheet.name);
    TableNameShape(sheet.name);
    PriceColumnIsKey(SheetColumns(sheet));
  }

  /** The primary sheet's catalog row: fixed key and table, the column map's columns, `name` and `price_idr` among them. */
  lemma TwsMetaWellFormed(sheet: Sheet, index: nat)
    requires sheet.name == PrimarySheet
    ensures var m := SheetMeta(sheet, index);
      && m.sortOrder == index + 1 && m.rowCount == |sheet.rows| && m.hasSlug == 1
      && m.key == "tws" && m.tableName == TwsTable && |m.columns| == |TwsColumnMap|
      && (m.primaryColumn.Some? ==> HasKey(m.columns, m.primaryColumn.value))
      && (m.priceColumn.Some? ==> HasKey(m.columns, m.priceColumn.value))
  {
    var m := SheetMeta(sheet, index);
    var columns := TwsColumns();
    assert m.columns == columns;
    assert columns[2].key == TwsColumnMap[2].key == "name";
    assert columns[3].key == TwsColumnMap[3].key == "price_idr";
  }

  /** `slug` extended by `-<counter>` keeps the slug shape. */
  lemma CounterSlugShape(base: string, digits: string)
    requires base != "" && SlugShape(base) && digits != "" && AllDigits(digits)
    ensures SlugShape(base + "-" + digits)
  {
    CounterShape(base, digits, '-');
    assert base + "-" + digits == base + ['-'] + digits;
  }

  /**
   * Every stored slug is non-empty, and on the primary sheet every slug is a
   * well-formed slug (lower-case letters, digits and single inner dashes).
   */
  lemma SheetSlugsShape(sheet: Sheet)
    ensures forall j :: 0 <= j < |sheet.rows| ==> SheetSlugs(sheet)[j] != ""
    ensures sheet.name == PrimarySheet ==> forall j :: 0 <= j < |sheet.rows| ==> SlugShape(SheetSlugs(sheet)[j])
  {
    forall j | 0 <= j < |sheet.rows|
      ensures SheetSlugs(sheet)[j] != ""
      ensures sheet.name == PrimarySheet ==> SlugShape(SheetSlugs(sheet)[j])
    {
      SheetSlugShape(sheet, j);
    }
  }

  lemma SheetSlugShape(sheet: Sheet, j: nat)
    requires j < |sheet.rows|
    ensures SheetSlugs(sheet)[j] != ""
    ensures sheet.name == PrimarySheet ==> SlugShape(SheetSlugs(sheet)[j])
  {
    RowSlugBaseShape(sheet, j);
    ClaimedSlugShape(SlugBases(sheet), j);
  }

  lemma RowSlugBaseShape(sheet: Sheet, j: nat)
    requires j < |sheet.rows|
    ensures RowSlugBase(sheet, j) != ""
    ensures sheet.name == PrimarySheet ==> SlugShape(RowSlugBase(sheet, j))
  {
    if sheet.name == PrimarySheet {
      assert SlugShape("tws");
      CounterSlugShape("tws", NatText(j + 1));
    }
  }

  /** De-duplication keeps a slug base non-empty and slug-shaped. */
  lemma ClaimedSlugShape(bases: seq<string>, j: nat)
    requires j < |bases| && bases[j] != ""
    ensures ClaimAll(map[], bases, '-').0[j] != ""
    ensures SlugShape(bases[j]) ==> SlugShape(ClaimAll(map[], bases, '-').0[j])
  {
    ClaimAllAt(map[], bases, '-', j);
    var k := Seen(map[], bases[j]) + multiset(bases[..j + 1])[bases[j]];
    if k > 1 && SlugShape(bases[j]) {
      CounterSlugShape(bases[j], NatText(k));
    }
  }

  /** With no slug base that already ends in `-<digits>`, the slugs of a sheet are pairwise distinct. */
  lemma SheetSlugsDistinct(sheet: Sheet)
    requires forall j :: 0 <= j < |sheet.rows| ==> !EndsWithCounter(SlugBases(sheet)[j], '-')
    ensures forall j, k :: 0 <= j < k < |sheet.rows| ==> SheetSlugs(sheet)[j] != SheetSlugs(sheet)[k]
  {
    ClaimAllDistinct(SlugBases(sheet), '-');
  }

  /**
   * Row `j` of a sheet is written by statement `j + 1` of the sheet's block:
   * an insert into the sheet's table with as many values as columns, whose
   * `row_order` reads back as `j + 1` and whose `slug` is the row's slug.
   */
  lemma RowInsertShape(sheet: Sheet, j: nat)
    requires j < |sheet.rows|
    ensures var st := SheetSeed(sheet)[j + 1];
      && st.Insert? && st.table == QuoteId(TableName(sheet.name))
      && |st.columns| == |st.values| >= 2
      && st.columns[0] == "row_order" && DigitsValue(st.values[0]) == j + 1
      && st.values[1] == ToSqlValue(Str(SheetSlugs(sheet)[j]))
  {
    NatTextRoundTrip(j + 1);
    RowInsertParts(sheet, j);
  }

  lemma RowInsertParts(sheet: Sheet, j: nat)
    requires j < |sheet.rows|
    ensures var st := SheetSeed(sheet)[j + 1];
      && st.Insert? && st.table == QuoteId(TableName(sheet.name))
      && |st.columns| == |st.values| >= 2
      && st.columns[0] == "row_order" && st.values[0] == NatText(j + 1)
      && st.values[1] == ToSqlValue(Str(SheetSlugs(sheet)[j]))
  {
    assert SheetSeed(sheet)[j + 1] == RowInsert(sheet, j);
    if sheet.name == PrimarySheet {
      TwsInsertShape(sheet.rows[j], j, SheetSlugs(sheet)[j]);
    } else {
      GenericInsertShape(TableName(sheet.name), SheetColumns(sheet), j, SheetSlugs(sheet)[j], GenericRowData(sheet, j));
    }
  }

  lemma TwsInsertShape(row: Row, j: nat, slug: string)
    ensures var st := TwsInsert(row, j, slug);
      && st.Insert? && st.table == QuoteId(TwsTable)
      && |st.columns| == |st.values| >= 2
      && st.columns[0] == "row_order" && st.values[0] == NatText(j + 1)
      && st.values[1] == ToSqlValue(Str(slug))
  {
    var st := TwsInsert(row, j, slug);
    assert TwsTableColumns[0] == "slug";
    assert st.values[1] == TwsValues(TwsMapped(row, slug))[0];
  }

  lemma GenericInsertShape(table: string, columns: seq<Column>, j: nat, slug: string, data: Row)
    ensures var st := GenericInsert(table, columns, j, slug, data);
      && st.Insert? && st.table == QuoteId(table)
      && |st.columns| == |st.values| >= 2
      && st.columns[0] == "row_order" && st.values[0] == NatText(j + 1)
      && st.values[1] == ToSqlValue(Str(slug))
  {
  }

  /** Distinct rows of a sheet give distinct insert statements. */
  lemma RowInsertsDistinct(sheet: Sheet, j: nat, k: nat)
    requires j < k < |sheet.rows|
    ensures SheetSeed(sheet)[j + 1] != SheetSeed(sheet)[k + 1]
  {
    RowInsertShape(sheet, j);
    RowInsertShape(sheet, k);
  }
}
