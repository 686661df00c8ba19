/**
 * The dataset catalog's data model, shared by the import script (which writes
 * `dataset_meta`) and the request-time reader (which reads it back).
 */
module Catalog {
  import opened Wrappers
  import opened Text
  import opened JsNumber
  import opened Json

  /** One declared column of a dataset: storage key and display label (`title`, as `label` is a Dafny keyword). */
  datatype Column = Column(key: string, title: string)

  /** A catalog entry as the reader returns it. */
  datatype DatasetMeta = DatasetMeta(
    key: string,
    title: string,
    tableName: string,
    columns: seq<Column>,
    rowCount: JsNum,
    sortOrder: JsNum,
    primaryColumn: Option<string>,
    priceColumn: Option<string>,
    hasSlug: bool)

  function Keys(columns: seq<Column>): (r: seq<string>)
    ensures |r| == |columns|
    ensures forall i :: 0 <= i < |columns| ==> r[i] == columns[i].key
  {
    seq(|columns|, i requires 0 <= i < |columns| => columns[i].key)
  }

  /** `JSON.stringify(columns)`: the text stored in `columns_json`. */
  function ColumnsJsonText(columns: seq<Column>): string {
    "[" + Join(seq(|columns|, i requires 0 <= i < |columns| =>
      "{\"key\":" + Quote(columns[i].key) + ",\"label\":" + Quote(columns[i].title) + "}"), ",") + "]"
  }

  /** What `JSON.parse` returns for the text `ColumnsJsonText(columns)`. */
  function ColumnsJsonValue(columns: seq<Column>): Json {
    JArr(seq(|columns|, i requires 0 <= i < |columns| =>
      JObj([("key", JStr(columns[i].key)), ("label", JStr(columns[i].title))])))
  }
}
