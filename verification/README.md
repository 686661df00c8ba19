# kitab-audio core, modelled in Dafny

kitab-audio is a catalogue of audio gear. It has three parts, and this
project models the pure logic of each one.

- **Import scripts.** `scripts/seed-d1-gear.mjs` turns an xlsx workbook into
  two SQL scripts for Cloudflare D1. The schema script drops and recreates the
  `dataset_meta` catalogue, the `tws_products` table and one table per other
  worksheet. The seed script clears the catalogue, writes one catalogue row
  per worksheet and one `INSERT` per worksheet row. `scripts/convert-tws.mjs`
  turns the `TWS` worksheet into the JSON product list.
- **Request-time readers.**
  - `src/lib/datasets.ts` reads the catalogue back. It builds the
    `SELECT ... FROM "<table>"` queries for one dataset, and refuses table
    and column names that are not plain identifiers.
  - `src/lib/tws.ts` reads product rows back into `TWSProduct` values.
- **Client-side list logic.**
  - `DatasetCardGrid.tsx` does the generic dataset search and the
    name/price sorts. It also picks badge and highlight columns.
  - `SearchFilter.tsx` does the TWS product search, the tier filter and the
    four sorts.
  - `ProductGrid.tsx` and `ui/badge.tsx` classify tiers into badge
    variants and card styles.

## Modules

| module | models |
|---|---|
| `Text` | ASCII character classes, `toLowerCase`/`toUpperCase`, `startsWith`, `includes`, `join`, `trim` whitespace, decimal digit text |
| `JsNumber` | JavaScript numbers as exact decimals plus `NaN`/`±Infinity`, `String(x)` (`DecText`) and `Number(s)` (`ParseNumber`) |
| `Cells` | cell values as the xlsx reader and D1 hand them over (`undefined`, `null`, string, number, boolean), `String(v)`, truthiness |
| `Coercion` | the three numeric coercions (`toNumber` of the scripts, `parseNumeric` of the card grid, `toNumber` of the product reader) and `toText` |
| `Identifiers` | `toSnake` and `slugify` |
| `Dedup` | the running-counter de-duplication shared by `uniqueKeys` and both `uniqueSlug`s |
| `SqlText` | `quoteId`, `toSqlValue` and quote doubling |
| `Statements` | the SQL statements the import script emits and their one-line rendering |
| `Json`, `Catalog` | the JSON values the catalogue stores and the `DatasetMeta`/`DatasetColumn` records |
| `SeedGen` | the whole import script from worksheets to the two statement lists |
| `ConvertTws` | the JSON converter |
| `Datasets` | `ensureIdentifier`, `parseColumns`, `getDatasetMeta`, `getDatasetRows`, `getDatasetRowBySlug` |
| `Tws` | `mapRowToProduct`, `getTwsProducts`, `getProductBySlug` |
| `Filtering`, `Sorting`, `Orderings` | `Array.prototype.filter`, `Array.prototype.sort` as a stable sort, and the numeric comparators the lists pass to it |
| `CardGrid` | `DatasetCardGrid.tsx` |
| `SearchFilter` | `SearchFilter.tsx` |
| `Tiers` | `getTierVariant`, `getTierStyles`, `displayValue` |

Parameters stand in for the outside world:
- The database is a function from a query (SQL text plus bound values) to
  its result rows (`AllRows`) or its first row (`FirstRow`).
- `JSON.parse` is a `Decoder` parameter. A malformed input yields `Malformed`.
- `localeCompare` is a "may precede" relation parameter `collate`. Where a
  sort's order matters, the relation is assumed to be a total preorder.

The model follows the code wherever the code departs from the documented
behaviour:
- **Repeat suffixes.** The k-th occurrence of a repeated base gets the
  suffix `k`, not `k - 1`. Three `abc` become `abc`, `abc-2`, `abc-3`, and
  two `Name` headers become `name`, `name_2` (`Dedup.UniqueKeysExample`).
- **Collisions.** Suffixing does not always give unique results. A base
  that already ends in `-<digits>` can collide with a generated name
  (`Dedup.ClaimAllCollision`). Uniqueness is proved only for bases that do
  not have that shape (`Dedup.ClaimAllDistinct`).
- **Dots in numbers.** `toNumber` strips everything but digits, `.` and `-`,
  so `"Rp 50.000"` reads as 50, not 50000 (`Coercion.ToNumberRupiah`).
- **Text without digits.** Such text reads as 0, because `Number("")` is 0
  (`Coercion.ToNumberOfWordIsZero`).
- **Blank product names.**
  - A blank `TWS` name is written as `NULL` into the `NOT NULL` column
    `name`, because `toSqlValue('')` is `NULL` (`SqlText.ToSqlValue`).
  - The two scripts give different fallback slugs to a nameless product
    (`ConvertTws.NamelessSlugsDiffer`).
- **Inherited override names.** The override table is a plain object, so
  a sheet named after a member of `Object.prototype` (`constructor`,
  `toString`, `__proto__`, ...) finds that member instead of `undefined`.
  Its table name becomes the member's text, such as
  `function Object() { [native code] }`. The reader's identifier guard then
  refuses the dataset (`SeedGen.TableNameShape`,
  `Datasets.GeneratedCatalogReadable`).
- **Empty worksheets.** A non-TWS worksheet without rows declares no data
  columns. Its `CREATE TABLE` then ends in `slug TEXT,` followed by `)`,
  and `SeedGen.Trailing` keeps that empty column list item.

## Model

| member | source | states |
|---|---|---|
| `SqlText.QuoteId` | scripts/seed-d1-gear.mjs:16 | the quoted identifier starts and ends with `"`, and undoubling its inside gives back exactly the original name |
| `SqlText.UndoubleDouble` | scripts/seed-d1-gear.mjs:16 | doubling a quote character is undone by undoubling, for every string |
| `SqlText.ToSqlValue` | scripts/seed-d1-gear.mjs:43-48 | the SQL literal never contains a newline. `null`, `undefined`, `''` and non-finite numbers give `NULL`, and booleans give `1`/`0`. A finite number's text reads back as the same number. A non-empty string gives a quoted literal whose inside unquotes to the text with its line breaks flattened |
| `SqlText.FlattenLines` | scripts/seed-d1-gear.mjs:47 | the result has no newline and is no longer than the input |
| `SqlText.DoubleKeepsNoNewline` | scripts/seed-d1-gear.mjs:47 | doubling quotes introduces no newline |
| `Identifiers.ReplaceRuns` | scripts/seed-d1-gear.mjs:21 | every run of characters outside `[a-z0-9]` becomes one separator: the result only holds lower-case alphanumerics and lone separators, is empty exactly when the input is, and starts with the input's first character or the separator |
| `Identifiers.ToSnakeShape` | scripts/seed-d1-gear.mjs:18-25 | every `toSnake` result is a non-empty identifier of `[a-z0-9_]` with no doubled, leading or trailing `_` that does not start with a digit |
| `Identifiers.ToSnakeFixed` | scripts/seed-d1-gear.mjs:18-25 | a string already of that shape is returned unchanged |
| `Identifiers.ToSnakeIdempotent` | scripts/seed-d1-gear.mjs:18-25 | applying `toSnake` twice is applying it once |
| `Identifiers.ToSnakeOfName` | scripts/seed-d1-gear.mjs:18-25 | `Name` becomes `name` |
| `Identifiers.ToSnakeOfYear` | scripts/seed-d1-gear.mjs:24 | a digit-leading result gets the `c_` prefix: `2024` becomes `c_2024` |
| `Identifiers.ToSnakeFallback` | scripts/seed-d1-gear.mjs:23 | a label with no alphanumerics becomes `column` |
| `Identifiers.SlugifyShape` | scripts/seed-d1-gear.mjs:37-41 | every slug holds only `[a-z0-9]` and single inner `-` |
| `Identifiers.SlugifyFixed` | scripts/seed-d1-gear.mjs:37-41 | a string already of slug shape is its own slug |
| `Identifiers.SlugifyIdempotent` | scripts/seed-d1-gear.mjs:37-41 | slugifying a slug changes nothing |
| `Identifiers.SlugifyMayBeEmpty` | scripts/seed-d1-gear.mjs:37-41 | unlike `toSnake` there is no fallback: `''` and `!!` give the empty slug |
| `Dedup.Claim` | scripts/seed-d1-gear.mjs:27-35 | one call bumps the counter of its base by one, leaves every other base's counter alone, and returns the base with the new count as suffix (bare for the first) |
| `Dedup.ClaimAllCounts` | scripts/seed-d1-gear.mjs:27-35 | after a whole list the counter of each base has grown by its number of occurrences |
| `Dedup.ClaimAllAt` | scripts/seed-d1-gear.mjs:27-35 | the i-th output is its base suffixed with the number of occurrences of that base up to and including position i |
| `Dedup.ClaimAllSpec` | scripts/seed-d1-gear.mjs:345-351 | for every position at once: the output is the base suffixed with its running count so far |
| `Dedup.OccurrenceAdvances` | scripts/seed-d1-gear.mjs:29-32 | every occurrence counts itself, and a later repeat of the same base has a strictly higher count |
| `Dedup.UniqueKeysSpec` | scripts/seed-d1-gear.mjs:27-35 | `uniqueKeys` keeps the length, keeps a first occurrence and turns the k-th occurrence into `key_k` |
| `Dedup.UniqueKeysExample` | scripts/seed-d1-gear.mjs:27-35 | `["name", "name"]` becomes `["name", "name_2"]` |
| `Dedup.SuffixedDistinct` | scripts/seed-d1-gear.mjs:246-251 | two different (base, occurrence) pairs give different names when neither base ends in `<sep><digits>` |
| `Dedup.ClaimAllDistinct` | scripts/seed-d1-gear.mjs:345-351 | with a fresh counter and no base of the `<text><sep><digits>` shape, all outputs are pairwise distinct |
| `Dedup.ClaimAllCollision` | scripts/seed-d1-gear.mjs:345-351 | without that proviso names collide: `["x-2", "x", "x"]` yields `x-2` twice |
| `Coercion.KeepNumeric` | scripts/seed-d1-gear.mjs:53 | the two replaces keep only digits, `.` and `-`, and leave text made of those unchanged |
| `Coercion.ToNumber` | scripts/seed-d1-gear.mjs:50-56 | `''`, `-`, `null` and `undefined` give null, and a number gives itself when finite and null otherwise. Text with no digit, `.` or `-` in it, and every boolean, reads as 0, because the stripped text is `''` and `Number('')` is 0 |
| `Coercion.ToNumberNormalises` | scripts/seed-d1-gear.mjs:53-55 | for other text only the kept digits, `.` and `-` decide the result |
| `Coercion.CoercionsReadNumberText` | scripts/seed-d1-gear.mjs:45 | the text `toSqlValue` writes for a finite number is read back as that number by all three coercions |
| `Coercion.ParseNumeric` | src/components/DatasetCardGrid.tsx:37-43 | `parseNumeric` agrees with the scripts' `toNumber` on every value. `-` is null in both: one tests for it explicitly, and in the other `Number('-')` is NaN |
| `Coercion.ReaderToNumber` | src/lib/tws.ts:39-44 | the reader's `toNumber` agrees with the scripts' on missing markers, on numbers and on text made only of digits, `.` and `-`. A boolean, which the scripts read as 0, is null here |
| `Coercion.ToNumberRupiah` | scripts/seed-d1-gear.mjs:53-55 | `Rp 50.000` reads as 50: the thousands dot is kept as a decimal point |
| `Coercion.KeepNumericRupiah` | scripts/seed-d1-gear.mjs:53 | the stripping step turns `Rp 50.000` into `50.000` |
| `Coercion.ParseNumberDash` | src/components/DatasetCardGrid.tsx:40-42 | `Number('-')` is NaN, so `parseNumeric` makes a lone `-` null without testing for it |
| `Coercion.ToNumberOfWordIsZero` | scripts/seed-d1-gear.mjs:53-55 | text with no digits (`TBA`) reads as 0, not null |
| `Coercion.ReaderToNumberKeepsCommas` | src/lib/tws.ts:42-43 | the reader does not strip separators: `1,234` is null there |
| `Coercion.ToText` | src/lib/tws.ts:36-37 | `null`/`undefined` give `''` and any other value its string form. The result is empty exactly for a nullish value or the empty string. `Tws.TextReads` is the inverse on stored text |
| `JsNumber.Normalize` | scripts/seed-d1-gear.mjs:45 | the canonical decimal has the same value, and a canonical one is kept |
| `JsNumber.ParseDecText` | scripts/seed-d1-gear.mjs:45 | `Number(String(x)) == x` for every finite number in plain notation |
| `JsNumber.ParseUnsignedText` | scripts/seed-d1-gear.mjs:54 | the digit text of a canonical unsigned decimal parses back to it |
| `Text.NatTextRoundTrip` | scripts/seed-d1-gear.mjs:33 | the decimal text of a counter reads back as that counter |
| `SeedGen.TableNameShape` | scripts/seed-d1-gear.mjs:157 | the `TWS` sheet gets `tws_products`. A sheet named after a member `Object.prototype` provides (`constructor`, `toString`, `__proto__`, ...) gets that member's text, which has a space in it. Every other sheet gets a snake-shaped name |
| `SeedGen.ConstructorTableName` | scripts/seed-d1-gear.mjs:12-14 | a sheet named `constructor` is given the text of the `Object` function as its table name |
| `SeedGen.PickByHints` | scripts/seed-d1-gear.mjs:75-81 | the first hint, in hint order, that is a column key wins; without one it is the first column's key, and there is no choice only when there are no columns |
| `SeedGen.PickPriceColumn` | scripts/seed-d1-gear.mjs:83-84 | the first key containing `price`, or nothing when no key contains it |
| `SeedGen.PriceColumnIsKey` | scripts/seed-d1-gear.mjs:83-84 | a chosen price column is one of the columns |
| `SeedGen.TwsColumnsInTable` | scripts/seed-d1-gear.mjs:253 | every catalogue column of the primary sheet is labelled and is a column of the `tws_products` table the script creates |
| `SeedGen.SheetColumns` | scripts/seed-d1-gear.mjs:319-321 | column i of a generic sheet is labelled with header i, and every key is a `toSnake`-shaped identifier, suffixes included |
| `SeedGen.SheetMetaWellFormed` | scripts/seed-d1-gear.mjs:319-335 | a generic sheet's catalogue row has sort order index + 1, the row count, `has_slug` 1, a snake-shaped key and column keys, and primary/price columns among its columns. Its table name is snake-shaped exactly when the sheet is not named after an inherited object member |
| `SeedGen.TwsMetaWellFormed` | scripts/seed-d1-gear.mjs:253-267 | the TWS catalogue row is keyed `tws`, names `tws_products`, carries one column per mapped field, and its primary and price columns are among them |
| `SeedGen.SchemaWithParts` | scripts/seed-d1-gear.mjs:154-209 | the schema is the catalogue drop, one drop per sheet in order, the fixed creates, then the generic sheets' creates |
| `SeedGen.FixedTablesShape` | scripts/seed-d1-gear.mjs:161-209 | the fixed part creates `dataset_meta` and `"tws_products"` and otherwise only indexes |
| `SeedGen.SheetCreateTable` | scripts/seed-d1-gear.mjs:337-341 | the TWS sheet adds no create statement; any other sheet adds exactly one `CREATE TABLE` of its own table |
| `SeedGen.SchemaWithCreatesOnly` | scripts/seed-d1-gear.mjs:161-209 | after the drops, the schema only creates |
| `SeedGen.SchemaWithRecreates` | scripts/seed-d1-gear.mjs:154-209 | every table the schema drops is created again later in the script |
| `SeedGen.SchemaDropsThenCreates` | scripts/seed-d1-gear.mjs:154-209 | the whole schema script (`Schema`): the catalogue drop and one drop per sheet in sheet order, then only creates, and every dropped table created again |
| `SeedGen.SeedLayout` | scripts/seed-d1-gear.mjs:237-382 | the whole seed script (`Seed`): the catalogue is cleared, then one catalogue insert per sheet in sheet order (spliced in at position 1), then each sheet's block |
| `SeedGen.SheetSlugsShape` | scripts/seed-d1-gear.mjs:271-274 | every row slug is non-empty, and TWS slugs are slug-shaped |
| `SeedGen.SlugBase` | scripts/seed-d1-gear.mjs:273-274 | a truthy name with a non-empty slug gives that slug. A truthy name whose slug is empty gives the fallback unchanged. A missing or empty name gives the fallback's slug, or the fallback when that slug is empty. The base is never empty when the fallback is not |
| `SeedGen.SlugBaseOfName` | scripts/seed-d1-gear.mjs:273-274 | with a slug-shaped fallback such as `tws-1`, a name that is already a slug is its own base, and a missing name or one with no slug gets the fallback |
| `SeedGen.SheetSlugsDistinct` | scripts/seed-d1-gear.mjs:345-361 | a sheet's slugs are pairwise distinct when no slug base ends in `-<digits>` |
| `SeedGen.RowInsertShape` | scripts/seed-d1-gear.mjs:309-312 | the insert for row j targets the sheet's table with `row_order` first, writes j + 1 there, and writes the row's slug next |
| `SeedGen.TwsInsertShape` | scripts/seed-d1-gear.mjs:309-312 | a TWS insert targets `"tws_products"`, puts `row_order` first with value j + 1 and the slug literal second |
| `SeedGen.RowInsertsDistinct` | scripts/seed-d1-gear.mjs:364-366 | no two row inserts of a sheet are the same statement |
| `Statements.RenderSingleLine` | scripts/seed-d1-gear.mjs:312 | a statement whose parts have no newline renders to a single line |
| `Statements.LinesJoin` | scripts/seed-d1-gear.mjs:385-386 | splitting a newline join of single-line parts at newlines gives back the parts |
| `Statements.ScriptLines` | scripts/seed-d1-gear.mjs:386 | the written script splits back into the rendered statements, one per line |
| `ConvertTws.PickSheet` | scripts/convert-tws.mjs:8 | the `TWS` sheet when the workbook has one, else the first sheet, and nothing for an empty workbook. The choice is always one of the workbook's sheets |
| `ConvertTws.Convert` | scripts/convert-tws.mjs:34-37 | one record per row, each with a non-empty slug-shaped slug from the shared counter |
| `ConvertTws.SlugBase` | scripts/convert-tws.mjs:35-37 | the base is the slug of the `TWS` cell's text when that slug is not empty, and `product` otherwise; it is never empty and always slug-shaped |
| `ConvertTws.SlugBaseOfName` | scripts/convert-tws.mjs:35-37 | a name that is already a slug is its own base, and the name `!!`, which has no slug, gets `product` |
| `ConvertTws.ConvertRecord` | scripts/convert-tws.mjs:34-67 | record j keeps row j's raw `TWS` cell as name and has empty highlights. Its eartips are the `Recommended Eartips` cell, with a nullish one replaced by `''`. Its price is `toNumber` of the `Price` cell, and its slug is non-empty and slug-shaped |
| `ConvertTws.ConvertSlugsDistinct` | scripts/convert-tws.mjs:18-24 | product slugs are pairwise distinct when no base ends in `-<digits>` |
| `ConvertTws.ConvertSlugsMatchSeed` | scripts/convert-tws.mjs:34-37 | when every product has a name with a non-empty slug, both scripts give every product the same slug |
| `ConvertTws.SlugBaseAgrees` | scripts/convert-tws.mjs:35-36 | a named product with a non-empty slug gets the same slug base in both scripts |
| `ConvertTws.NamelessSlugsDiffer` | scripts/convert-tws.mjs:35-37 | a nameless first product is `product` in the JSON but `tws-1` in the database |
| `Datasets.EnsureIdentifier` | src/lib/datasets.ts:24-29 | accepted exactly when non-empty and made of ASCII letters, digits and `_`, and then unchanged; otherwise the unsafe-identifier error naming the value |
| `Datasets.EnsureKeys` | src/lib/datasets.ts:78 | all keys accepted in order, or the error of the first unsafe key |
| `Datasets.SnakeIsSafe` | src/lib/datasets.ts:24-29 | every name `toSnake` produces passes the guard |
| `Datasets.ParseColumns` | src/lib/datasets.ts:31-46 | malformed JSON or a non-array gives no columns. For an array the result holds every complete column read from its elements, as often as it occurs, and nothing else, in array order (the `NonBlank` filter of the elements' columns) |
| `Datasets.NonBlank` | src/lib/datasets.ts:40 | the result holds every complete column of the input, as often as it occurs there, and no incomplete one |
| `Datasets.NonBlankAppend` | src/lib/datasets.ts:40 | the filter keeps order: the columns kept from `a + b` are those kept from `a`, then those kept from `b` |
| `Datasets.NonBlankKeepsComplete` | src/lib/datasets.ts:40 | a list of complete columns passes the filter unchanged |
| `Datasets.ParseColumnsRoundTrip` | src/lib/datasets.ts:31-46 | parsing the JSON the import script writes gives back the complete columns |
| `Datasets.OrElse` | src/lib/datasets.ts:58 | `??` keeps any non-nullish value and replaces only `null`/`undefined`, so the result is never nullish when the fallback is not |
| `Datasets.TextIfTruthy` | src/lib/datasets.ts:66-67 | a truthy value gives its string form and a falsy one null, so a column name is never present as `''` |
| `Datasets.GetDatasetMeta` | src/lib/datasets.ts:48-71 | entry i is row i of the result set read as a catalogue entry. A missing result set gives no entries |
| `Datasets.MetaFromRow` | src/lib/datasets.ts:57-70 | a missing or null count or position reads as 0, and a missing column list as no columns. Only complete columns are kept, and an empty primary or price column name reads as none. A missing table name reads as the text `undefined`, a text key as itself, and `has_slug` by truthiness |
| `Datasets.MetaRowReads` | src/lib/datasets.ts:57-70 | a row holding a catalogue record's values reads back as that record (complete columns only, numbers exact, `has_slug` as a boolean) |
| `Datasets.OptionCellReads` | src/lib/datasets.ts:66-67 | a stored primary or price column name, or `NULL` for none, reads back as itself |
| `Datasets.MetaRoundTrip` | scripts/seed-d1-gear.mjs:371-380 | the catalogue row the import script stores reads back as the entry it describes |
| `Datasets.GeneratedMetaReads` | scripts/seed-d1-gear.mjs:319-335 | a generic sheet's stored catalogue row reads back with the same columns and table name, every column key passing the guard |
| `Datasets.GeneratedCatalogReadable` | src/lib/datasets.ts:73-88 | a generic sheet's catalogue entry reads back with its columns and table name. It passes the identifier guards exactly when the sheet is not named after an inherited object member, and otherwise fails with the table name. When it passes, the row query is issued exactly when the sheet has rows and headers |
| `Datasets.RowsSelect` | src/lib/datasets.ts:77-81 | an unsafe table name fails first. Any unsafe key fails, and no columns means no query. Otherwise it selects from the dataset's table, `slug` first when the dataset has slugs, then the column keys in order |
| `Datasets.GetDatasetRows` | src/lib/datasets.ts:73-88 | a guard error propagates, no columns gives `[]` without asking the database, and otherwise the rows of the built query ordered by `row_order` |
| `Datasets.GetDatasetRowBySlug` | src/lib/datasets.ts:90-107 | a guard error propagates, and no columns gives `undefined`. Otherwise it returns the first row of the built `WHERE slug = ? LIMIT 1` query, with the slug only as the bound value |
| `Datasets.NoColumnsNoQuery` | src/lib/datasets.ts:79 | with no columns the answer does not depend on the database |
| `Datasets.SelectSqlNames` | src/lib/datasets.ts:81-84 | the double-quoted names in the generated SQL are exactly the selected columns and then the table |
| `Datasets.RowsSelectNames` | src/lib/datasets.ts:77-84 | once the guards pass, the quoted names in the query text are exactly `slug` (if any), the dataset's keys and its table: nothing from a name escapes its quotes |
| `Datasets.SafeNoQuote` | src/lib/datasets.ts:25 | a name that passes the guard contains no `"` |
| `Tws.SelectFieldsMatchImport` | src/lib/tws.ts:46-77 | the reader selects exactly the columns the import script writes, in the same order |
| `Tws.MapRowToProduct` | src/lib/tws.ts:79-110 | the slug is empty only when the row has none (missing, null or `''`). A price or overall score is present only when its cell is |
| `Tws.MapRowToProductRoundTrip` | src/lib/tws.ts:79-110 | a row holding a product's text and numbers (or `NULL`) reads back as exactly that product |
| `Tws.NumberCellReads` | src/lib/tws.ts:39-44 | a stored number, or `NULL` for none, reads back as itself |
| `Tws.EmptyRowProduct` | src/lib/tws.ts:79-110 | a row without the columns gives the product with every text field empty and every number null |
| `Tws.ProductsReadBack` | src/lib/tws.ts:112-116 | rows holding products read back as exactly those products, in the database's order |
| `Tws.ProductBySlugFindsStored` | src/lib/tws.ts:118-125 | looking up a stored product by its slug gives that product back |
| `Filtering.Filter` | src/components/SearchFilter.tsx:91-102 | `filter` keeps exactly the passing elements, each as often as in the input |
| `Filtering.FilterMembers` | src/components/SearchFilter.tsx:91-102 | a value is in the result exactly when it is in the input and passes |
| `Filtering.FilterAppend` | src/components/SearchFilter.tsx:91-102 | filtering keeps relative order: the kept part of `a + b` is the kept part of `a`, then of `b` |
| `Filtering.FilterCommutes` | src/components/SearchFilter.tsx:91-102 | two filters in either order give the same list |
| `Filtering.FilterKeepsOrder` | src/components/SearchFilter.tsx:38 | any order between earlier and later elements survives filtering |
| `Sorting.SortBy` | src/components/SearchFilter.tsx:104-117 | sorting is a permutation of its input |
| `Sorting.InsertSorted` | src/components/SearchFilter.tsx:104-117 | inserting into a sorted list keeps it sorted |
| `Sorting.SortBySorted` | src/components/SearchFilter.tsx:104-117 | with a consistent comparator, every element may precede every later one |
| `Sorting.SortByStable` | src/components/SearchFilter.tsx:104-117 | elements the comparator ties keep their input order |
| `Sorting.SortBySortedInput` | src/components/DatasetCardGrid.tsx:106-124 | an input already in order is returned unchanged |
| `Orderings.Difference` | src/components/DatasetCardGrid.tsx:110 | the sign of a difference of keys, zero exactly for equal keys and for `Infinity - Infinity` |
| `Orderings.AscendingMissingLastMeaning` | src/components/DatasetCardGrid.tsx:110 | `(a ?? Infinity) - (b ?? Infinity) <= 0` exactly when a missing value does not precede a present one and present values rise |
| `Orderings.DescendingMissingZeroMeaning` | src/components/DatasetCardGrid.tsx:117 | `(b ?? 0) - (a ?? 0) <= 0` exactly when the values, missing read as 0, fall |
| `Orderings.AscendingMissingLastPreorder` | src/components/DatasetCardGrid.tsx:110 | that comparator is total and transitive |
| `Orderings.DescendingMissingZeroPreorder` | src/components/DatasetCardGrid.tsx:117 | that comparator is total and transitive |
| `Orderings.ByKeyPreorder` | src/components/SearchFilter.tsx:115 | comparing items by a key keeps a total preorder on keys a total preorder on items |
| `CardGrid.FormatValue` | src/components/DatasetCardGrid.tsx:32-35 | the shown text is never empty. It is the dash exactly for missing or empty values (or a dash itself), and any other value shows as its string form |
| `CardGrid.BadgeCandidates` | src/components/DatasetCardGrid.tsx:51-52 | keys that are `price_performance` or contain `tier`, `rank` or `value`, each as often as declared |
| `CardGrid.BadgeKeys` | src/components/DatasetCardGrid.tsx:88-91 | at most two badge keys, a prefix of the candidates, and all of them when fewer than two |
| `CardGrid.PickHighlightKey` | src/components/DatasetCardGrid.tsx:54-59 | the first column whose key contains `review`, `notes`, `fitur` or `soundtest`, or none exactly when no key does |
| `CardGrid.PrimaryKey` | src/components/DatasetCardGrid.tsx:84 | the declared primary column when there is one, otherwise the first column's key, otherwise `''`. When the declared column is one of the columns, the name key is a column key exactly when there are columns |
| `CardGrid.PriceKey` | src/components/DatasetCardGrid.tsx:85 | a non-empty key is the catalogue's price column. When no empty name is stored, the key is non-empty exactly when there is a price column |
| `CardGrid.SearchRows` | src/components/DatasetCardGrid.tsx:96-104 | a blank search keeps all rows; otherwise exactly the rows where some declared column's non-null value contains the lower-cased query |
| `CardGrid.SortOptions` | src/components/DatasetCardGrid.tsx:129-137 | name sort always first, and the two price sorts offered exactly when there is a price column |
| `CardGrid.FilteredRows` | src/components/DatasetCardGrid.tsx:93-127 | the shown rows are a permutation of the matching rows, and a price sort without a price column leaves them in order |
| `CardGrid.CardOrder` | src/components/DatasetCardGrid.tsx:106-124 | the rows stay unsorted exactly for a price sort without a price column. Every order used is consistent, the name order when the collation is |
| `CardGrid.PriceLowOrder` | src/components/DatasetCardGrid.tsx:107-113 | rows with a price come first, in rising price |
| `CardGrid.PriceHighOrder` | src/components/DatasetCardGrid.tsx:114-120 | prices fall, a missing price counting as 0 |
| `CardGrid.ByNameOrder` | src/components/DatasetCardGrid.tsx:121-123 | rows follow the collation of their shown names |
| `CardGrid.FilteredRowsStable` | src/components/DatasetCardGrid.tsx:106-124 | rows the chosen order ties keep their database order |
| `SearchFilter.Rank` | src/components/SearchFilter.tsx:35 | a tier's position in `tierOrder`, past the end exactly for unlisted tiers |
| `SearchFilter.RankOfListed` | src/components/SearchFilter.tsx:35 | the listed tiers are distinct, so each has its own position |
| `SearchFilter.TierOrderDistinct` | src/components/SearchFilter.tsx:35 | no tier is listed twice |
| `SearchFilter.Tiers` | src/components/SearchFilter.tsx:36-40 | `all` first, then exactly the listed tiers some product carries (blank tiers skipped) |
| `SearchFilter.TiersInOrder` | src/components/SearchFilter.tsx:36-40 | the offered tiers follow `tierOrder` whatever the product order |
| `SearchFilter.SearchProducts` | src/components/SearchFilter.tsx:89-98 | a blank search keeps all; otherwise exactly the products whose name, highlights, review or tuning contains the lower-cased query |
| `SearchFilter.TierProducts` | src/components/SearchFilter.tsx:100-102 | `all` keeps all; otherwise exactly the products whose upper-cased tier starts with the selection |
| `SearchFilter.Visible` | src/components/SearchFilter.tsx:89-102 | the products passing both the search and the tier test, each as often as given |
| `SearchFilter.StepsCommute` | src/components/SearchFilter.tsx:89-102 | searching then filtering by tier equals filtering by tier then searching |
| `SearchFilter.TierPrefixExamples` | src/components/SearchFilter.tsx:101 | `a+` and `A-` pass `A`, `SS` passes `S`, `A` fails `B`, an empty tier fails `S` |
| `SearchFilter.ProductOrder` | src/components/SearchFilter.tsx:104-117 | all four sort comparators are consistent (name sort given a consistent collation) |
| `SearchFilter.Emitted` | src/components/SearchFilter.tsx:86-120 | the list handed to `onFilter` is a permutation of the visible products |
| `SearchFilter.FilteredCount` | src/components/SearchFilter.tsx:65-84 | the count never exceeds the products, and equals them with a blank search and `all` |
| `SearchFilter.CountMatchesEmitted` | src/components/SearchFilter.tsx:65-120 | the shown count is the length of the emitted list, whatever the sort |
| `SearchFilter.ScoreOrder` | src/components/SearchFilter.tsx:105-107 | overall scores fall, a missing score counting as 0 |
| `SearchFilter.PriceLowOrder` | src/components/SearchFilter.tsx:108-110 | priced products first, in rising price |
| `SearchFilter.PriceHighOrder` | src/components/SearchFilter.tsx:111-113 | prices fall, a missing price counting as 0 |
| `SearchFilter.NameOrder` | src/components/SearchFilter.tsx:114-116 | names follow the collation |
| `SearchFilter.EmittedStable` | src/components/SearchFilter.tsx:104-117 | products the chosen order ties keep their input order |
| `Tiers.TierVariant` | src/components/ui/badge.tsx:48-55 | each variant is chosen exactly by its own test on the upper-cased tier: `SS`/`SSS`, exactly `S`, an `A` prefix, a `B` prefix |
| `Tiers.TierStyles` | src/components/ProductGrid.tsx:39-46 | the card style is always the style of the tier's badge variant |
| `Tiers.VariantNameInjective` | src/components/ui/badge.tsx:48 | the five variant names are distinct |
| `Tiers.VariantExamples` | src/components/ui/badge.tsx:48-55 | `ss` and `sSs` are gold and a bare `s` is silver. `S+`, `SA` and the empty tier get the default, `a-` gets A and `B+` gets B |
| `Tiers.CaseInsensitive` | src/components/ui/badge.tsx:49 | badge and card style depend only on the upper-cased tier |
| `Tiers.StylesDistinct` | src/components/ProductGrid.tsx:39-46 | the five card styles are pairwise different |
| `Tiers.SamePartition` | src/components/ProductGrid.tsx:39-46 | two tiers share a card style exactly when they share a badge variant |
| `Tiers.VariantMatchesTierFilter` | src/components/ui/badge.tsx:48-55 | choosing `A` (or `B`) in the tier filter keeps exactly the A (or B) badges, and gold and silver badges pass `S` |
| `Tiers.DisplayValue` | src/components/ProductGrid.tsx:48 | never empty or `-`; other text shown as it is, `''` and `-` as the dash |
| `Tiers.DisplayValueIdempotent` | src/components/ProductGrid.tsx:48 | showing a shown value again changes nothing |

## Left out

- Reading the workbook (`xlsx`), writing files, console output and the D1
  driver are left out. The database and `JSON.parse` are parameters.
- The worksheet is given as its header list and row maps. The header order
  (`Object.keys` of the first row) is taken as given.
- Numbers are exact decimals, not IEEE doubles, so rounding and
  exponent-notation text are not modelled. `DecText` writes plain notation
  only. `ParseNumber` reads an optional `+` or `-`, then digits with at most
  one decimal point, or `Infinity`. Hex and exponent forms read as NaN.
- Case mapping is ASCII only. `toLowerCase`/`toUpperCase` of other letters
  is left out.
- `localeCompare` is left out: name sorts take a collation parameter.
- The search debounce, React state and effects, rendering, `formatPrice`
  (`Intl.NumberFormat`), the score bar and the skeleton and scroll
  components are left out. They are presentation only.
- SQLite's parsing of the emitted statements is left out.
  `Datasets.MetaRoundTrip` and `Tws.MapRowToProductRoundTrip` state what a
  stored row holds (`StoredRow`, `Holds`) rather than deriving it from the
  SQL text.
- The SQL `ORDER BY` clauses are left out: row order is whatever the
  database function returns.
- `Datasets.GetDatasetMeta` does not state that the entries come sorted by
  `sort_order`, because that order is the database's.
- `Datasets.ParseColumns`: a key or label stored as a JSON number is
  converted to text in plain decimal notation (`DecText`). JavaScript writes
  exponent notation for very large and very small numbers, and that text is
  not reproduced.
- `Statements.ScriptLines` applies only to statements whose parts have no
  newline. The multi-line `CREATE TABLE` bodies are rendered, but the lemma
  does not cover them.
- `SeedGen.SheetSlugsDistinct`, `ConvertTws.ConvertSlugsDistinct`: both
  hold only when no slug base already ends in `-<digits>`. Without that
  condition the property fails (`Dedup.ClaimAllCollision`).
