/**
 * The dataset card grid: how a cell is shown, which columns become badges
 * and the highlight, and the list the grid renders — the rows matching the
 * search, ordered by name or by price.
 */
module CardGrid {
  import opened Wrappers
  import opened Text
  import opened JsNumber
  import opened Cells
  import opened Coercion
  import opened Catalog
  import opened Filtering
  import opened Sorting
  import opened Orderings

  /** The placeholder shown for an empty value. */
  const EmDash := "—"

  /**
   * `formatValue`: `null`, `undefined` and `''` show as the placeholder,
   * anything else as its string form. A shown value is never blank, and it
   * is the placeholder exactly for an empty value (or the placeholder itself).
   */
  function FormatValue(c: Cell): (r: string)
    ensures r != ""
    ensures r == EmDash <==> IsNullish(c) || c == Str("") || c == Str(EmDash)
    ensures !IsNullish(c) && c != Str("") ==> r == CellText(c)
  {
    if IsNullish(c) || c == Str("") then EmDash
    else
      assert c.Num? && c.n.Finite? ==> CellText(c) != "" && CellText(c) != EmDash by {
        if c.Num? && c.n.Finite? { DecTextNonEmpty(c.n.d); }
      }
      CellText(c)
  }

  lemma DecTextNonEmpty(d: Dec)
    ensures DecText(d) != "" && DecText(d) != EmDash
  {
    DecTextNumeric(d);
    assert !IsNumericChar(EmDash[0]);
  }

  /** `isBadgeKey` */
  predicate IsBadgeKey(key: string) {
    key == "price_performance" || ContainsAt(key, "tier") || ContainsAt(key, "rank") || ContainsAt(key, "value")
  }

  /** The keys of the columns that qualify as badges, in column order. */
  function BadgeCandidates(columns: seq<Column>): (r: seq<string>)
    ensures forall i :: 0 <= i < |r| ==> IsBadgeKey(r[i])
    ensures forall k :: multiset(r)[k] == (if IsBadgeKey(k) then multiset(Keys(columns))[k] else 0)
  {
    Filter(Keys(columns), IsBadgeKey)
  }

  /** `badgeKeys`: the first two qualifying keys, or all of them when there are fewer. */
  function BadgeKeys(columns: seq<Column>): (r: seq<string>)
    ensures |r| <= 2
    ensures forall i :: 0 <= i < |r| ==> IsBadgeKey(r[i])
    ensures r <= BadgeCandidates(columns)
    ensures |r| < 2 ==> r == BadgeCandidates(columns)
  {
    var all := BadgeCandidates(columns);
    if |all| <= 2 then all else all[..2]
  }

  /** A key names a review-like column. */
  predicate IsHighlightKey(key: string) {
    ContainsAt(key, "review") || ContainsAt(key, "notes") || ContainsAt(key, "fitur") || ContainsAt(key, "soundtest")
  }

  /** `pickHighlightKey`: the first review-like column, or nothing. */
  function PickHighlightKey(columns: seq<Column>): (r: Option<string>)
    ensures r.None? <==> forall i :: 0 <= i < |columns| ==> !IsHighlightKey(columns[i].key)
    ensures r.Some? ==>
      exists i :: (0 <= i < |columns| && columns[i].key == r.value && IsHighlightKey(r.value) &&
                   forall j :: 0 <= j < i ==> !IsHighlightKey(columns[j].key))
  {
    if columns == [] then None
    else if IsHighlightKey(columns[0].key) then
      assert columns[0].key == columns[0].key;
      Some(columns[0].key)
    else
      var r := PickHighlightKey(columns[1..]);
      assert forall i :: 1 <= i < |columns| ==> columns[1..][i - 1] == columns[i];
      if r.Some? then
        var i :| 0 <= i < |columns[1..]| && columns[1..][i].key == r.value && IsHighlightKey(r.value) &&
                 forall j :: 0 <= j < i ==> !IsHighlightKey(columns[1..][j].key);
        assert columns[i + 1].key == r.value;
        r
      else r
  }

  /**
   * `primaryKey`: the primary column, else the first column's key, else
   * `''`. When the catalog's primary column is one of its columns, the grid
   * names rows by a declared column, and by the empty key only when there is
   * none.
   */
  function PrimaryKey(d: DatasetMeta): (r: string)
    ensures (d.primaryColumn.Some? ==> d.primaryColumn.value in Keys(d.columns)) ==>
      (r in Keys(d.columns) <==> d.columns != []) && (d.columns == [] ==> r == "")
    ensures d.primaryColumn.Some? ==> r == d.primaryColumn.value
    ensures d.primaryColumn.None? ==> r == (if d.columns != [] then d.columns[0].key else "")
  {
    if d.primaryColumn.Some? then d.primaryColumn.value
    else if d.columns != [] then
      assert Keys(d.columns)[0] == d.columns[0].key;
      d.columns[0].key
    else ""
  }

  /** `priceKey`: the price column, else `''`; with no empty name stored, non-empty exactly when there is a price column. */
  function PriceKey(d: DatasetMeta): (r: string)
    ensures (d.priceColumn.Some? ==> d.priceColumn.value != "") ==> (r != "" <==> d.priceColumn.Some?)
    ensures r != "" ==> d.priceColumn == Some(r)
  {
    d.priceColumn.GetOr("")
  }

  /** One column of a row matches the (lower-cased) query. */
  predicate CellMatches(c: Cell, query: string) {
    !IsNullish(c) && ContainsAt(Lower(CellText(c)), query)
  }

  /** Some declared column of the row holds a value whose text contains the query. */
  predicate RowMatches(row: Row, columns: seq<Column>, query: string) {
    exists i :: 0 <= i < |columns| && CellMatches(Get(row, columns[i].key), query)
  }

  function Matcher(columns: seq<Column>, query: string): Row -> bool {
    row => RowMatches(row, columns, query)
  }

  /** The search step: a blank search keeps every row; otherwise the rows matching the lower-cased text. */
  function SearchRows(rows: seq<Row>, columns: seq<Column>, search: string): (r: seq<Row>)
    ensures IsBlank(search) ==> r == rows
    ensures forall x :: (multiset(r)[x] ==
      if IsBlank(search) || RowMatches(x, columns, Lower(search)) then multiset(rows)[x] else 0)
  {
    if IsBlank(search) then rows else Filter(rows, Matcher(columns, Lower(search)))
  }

  /** The sort menu's choices. */
  datatype SortMode = ByName | PriceLow | PriceHigh

  /** `sortOptions`: name always, the price orders only when the dataset has a price column. */
  function SortOptions(d: DatasetMeta): (r: seq<SortMode>)
    ensures |r| > 0 && r[0] == ByName
    ensures PriceLow in r <==> PriceKey(d) != ""
    ensures PriceHigh in r <==> PriceKey(d) != ""
  {
    [ByName] + (if PriceKey(d) != "" then [PriceLow, PriceHigh] else [])
  }

  /** `parseNumeric(row[priceKey])` */
  function Price(d: DatasetMeta, row: Row): Option<Dec> {
    ParseNumeric(Get(row, PriceKey(d)))
  }

  /** `formatValue(row[primaryKey])` */
  function Name(d: DatasetMeta, row: Row): string {
    FormatValue(Get(row, PrimaryKey(d)))
  }

  function PriceOf(d: DatasetMeta): Row -> Option<Dec> {
    row => Price(d, row)
  }

  function NameOf(d: DatasetMeta): Row -> string {
    row => Name(d, row)
  }

  /**
   * The order a mode sorts by, or nothing when the rows stay as they are;
   * `collate` is `localeCompare` read as "may precede".
   */
  function CardOrder(d: DatasetMeta, mode: SortMode, collate: (string, string) -> bool): (r: Option<(Row, Row) -> bool>)
    ensures r.None? <==> mode != ByName && PriceKey(d) == ""
    ensures r.Some? && (mode == ByName ==> TotalPreorder(collate)) ==> TotalPreorder(r.value)
  {
    match mode
    case ByName =>
      assert TotalPreorder(collate) ==> TotalPreorder(ByKey(NameOf(d), collate)) by {
        if TotalPreorder(collate) { ByKeyPreorder(NameOf(d), collate); }
      }
      Some(ByKey(NameOf(d), collate))
    case PriceLow =>
      if PriceKey(d) != "" then
        assert TotalPreorder(ByKey(PriceOf(d), NotAfter(AscendingMissingLast))) by {
          AscendingMissingLastPreorder();
          ByKeyPreorder(PriceOf(d), NotAfter(AscendingMissingLast));
        }
        Some(ByKey(PriceOf(d), NotAfter(AscendingMissingLast)))
      else None
    case PriceHigh =>
      if PriceKey(d) != "" then
        assert TotalPreorder(ByKey(PriceOf(d), NotAfter(DescendingMissingZero))) by {
          DescendingMissingZeroPreorder();
          ByKeyPreorder(PriceOf(d), NotAfter(DescendingMissingZero));
        }
        Some(ByKey(PriceOf(d), NotAfter(DescendingMissingZero)))
      else None
  }

  /** `filteredRows`: the search step, then the mode's sort. */
  function FilteredRows(d: DatasetMeta, rows: seq<Row>, search: string, mode: SortMode,
                        collate: (string, string) -> bool): (r: seq<Row>)
    ensures |r| == |SearchRows(rows, d.columns, search)|
    ensures multiset(r) == multiset(SearchRows(rows, d.columns, search))
    ensures mode != ByName && PriceKey(d) == "" ==> r == SearchRows(rows, d.columns, search)
  {
    var items := SearchRows(rows, d.columns, search);
    match CardOrder(d, mode, collate)
    case None => items
    case Some(le) => SortBy(items, le)
  }

  /** Low to high: a priced row never follows an unpriced one, and prices rise. */
  lemma PriceLowOrder(d: DatasetMeta, rows: seq<Row>, search: string, collate: (string, string) -> bool)
    requires PriceKey(d) != ""
    ensures var r := FilteredRows(d, rows, search, PriceLow, collate);
      forall i, j :: 0 <= i < j < |r| ==>
        && (Price(d, r[i]).None? ==> Price(d, r[j]).None?)
        && (Price(d, r[i]).Some? && Price(d, r[j]).Some? ==> Value(Price(d, r[i]).value) <= Value(Price(d, r[j]).value))
  {
    var le := ByKey(PriceOf(d), NotAfter(AscendingMissingLast));
    var items := SearchRows(rows, d.columns, search);
    var r := FilteredRows(d, rows, search, PriceLow, collate);
    assert r == SortBy(items, le);
    AscendingMissingLastPreorder();
    ByKeyPreorder(PriceOf(d), NotAfter(AscendingMissingLast));
    SortBySorted(items, le);
    forall i, j | 0 <= i < j < |r|
      ensures && (Price(d, r[i]).None? ==> Price(d, r[j]).None?)
              && (Price(d, r[i]).Some? && Price(d, r[j]).Some? ==> Value(Price(d, r[i]).value) <= Value(Price(d, r[j]).value))
    {
      assert le(r[i], r[j]);
      AscendingMissingLastMeaning(Price(d, r[i]), Price(d, r[j]));
    }
  }

  /** High to low: prices fall, an unparseable price counting as zero. */
  lemma PriceHighOrder(d: DatasetMeta, rows: seq<Row>, search: string, collate: (string, string) -> bool)
    requires PriceKey(d) != ""
    ensures var r := FilteredRows(d, rows, search, PriceHigh, collate);
      forall i, j :: 0 <= i < j < |r| ==> ZeroIfMissing(Price(d, r[j])) <= ZeroIfMissing(Price(d, r[i]))
  {
    var le := ByKey(PriceOf(d), NotAfter(DescendingMissingZero));
    var items := SearchRows(rows, d.columns, search);
    var r := FilteredRows(d, rows, search, PriceHigh, collate);
    assert r == SortBy(items, le);
    DescendingMissingZeroPreorder();
    ByKeyPreorder(PriceOf(d), NotAfter(DescendingMissingZero));
    SortBySorted(items, le);
    forall i, j | 0 <= i < j < |r|
      ensures ZeroIfMissing(Price(d, r[j])) <= ZeroIfMissing(Price(d, r[i]))
    {
      assert le(r[i], r[j]);
      DescendingMissingZeroMeaning(Price(d, r[i]), Price(d, r[j]));
    }
  }

  /** By name: with a consistent collation, the shown names are in collation order. */
  lemma ByNameOrder(d: DatasetMeta, rows: seq<Row>, search: string, collate: (string, string) -> bool)
    requires TotalPreorder(collate)
    ensures var r := FilteredRows(d, rows, search, ByName, collate);
      forall i, j :: 0 <= i < j < |r| ==> collate(Name(d, r[i]), Name(d, r[j]))
  {
    var le := ByKey(NameOf(d), collate);
    var items := SearchRows(rows, d.columns, search);
    var r := FilteredRows(d, rows, search, ByName, collate);
    assert r == SortBy(items, le);
    ByKeyPreorder(NameOf(d), collate);
    SortBySorted(items, le);
    forall i, j | 0 <= i < j < |r|
      ensures collate(Name(d, r[i]), Name(d, r[j]))
    {
      assert le(r[i], r[j]);
    }
  }

  /** Rows the mode cannot tell apart keep the order the search left them in. */
  lemma FilteredRowsStable(d: DatasetMeta, rows: seq<Row>, search: string, mode: SortMode,
                           collate: (string, string) -> bool, c: Row)
    requires CardOrder(d, mode, collate).Some?
    requires mode == ByName ==> TotalPreorder(collate)
    ensures var le := CardOrder(d, mode, collate).value;
      TiedWith(FilteredRows(d, rows, search, mode, collate), c, le) == TiedWith(SearchRows(rows, d.columns, search), c, le)
  {
    var le := CardOrder(d, mode, collate).value;
    SortByStable(SearchRows(rows, d.columns, search), c, le);
  }
}
