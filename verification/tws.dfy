/**
 * The request-time product reader: the fixed column list, the mapping of a
 * result row to a product, and the two queries against the primary table.
 */
module Tws {
  import opened Wrappers
  import opened Text
  import opened JsNumber
  import opened Cells
  import opened Coercion
  import SeedGen
  import Datasets

  /** A product as the pages receive it: text fields, and numbers that are finite or absent. */
  datatype Product = Product(
    slug: string,
    name: string,
    highlights: string,
    tier: string,
    pricePerformance: string,
    priceIdr: Option<Dec>,
    microphonePerformance: string,
    reviewSummary: string,
    bluetoothCodec: string,
    batteryLife: string,
    ancLevel: string,
    transparencyMode: string,
    equalizerType: string,
    overallSoundScore: Option<Dec>,
    bassScore: Option<Dec>,
    lowMidScore: Option<Dec>,
    highMidScore: Option<Dec>,
    trebleScore: Option<Dec>,
    vocalScore: Option<Dec>,
    soundstageScore: Option<Dec>,
    separationScore: Option<Dec>,
    imagingScore: Option<Dec>,
    timbreScore: Option<Dec>,
    punchScore: Option<Dec>,
    clarityScore: Option<Dec>,
    gamingMode: string,
    soundTuning: string,
    ipRating: string,
    multipoint: string,
    recommendedEartips: string)

  /** The columns both queries select, in order. */
  const SelectFields: seq<string> := [
    "slug", "name", "highlights", "tier", "price_performance", "price_idr",
    "microphone_performance", "review_summary", "bluetooth_codec", "battery_life",
    "anc_level", "transparency_mode", "equalizer_type", "overall_sound_score",
    "bass_score", "low_mid_score", "high_mid_score", "treble_score", "vocal_score",
    "soundstage_score", "separation_score", "imaging_score", "timbre_score",
    "punch_score", "clarity_score", "gaming_mode", "sound_tuning", "ip_rating",
    "multipoint", "recommended_eartips"
  ]

  /** The reader selects exactly the columns, in the order, that the import script writes. */
  lemma SelectFieldsMatchImport()
    ensures SelectFields == SeedGen.TwsTableColumns
  {
  }

  /**
   * `mapRowToProduct`: text through `toText`, numbers through `toNumber`. The
   * slug is empty only when the row has none; a price or score is present
   * only when its cell is.
   */
  function MapRowToProduct(row: Row): (r: Product)
    ensures r.slug == "" <==> IsNullish(Get(row, "slug")) || Get(row, "slug") == Str("")
    ensures r.priceIdr.Some? ==> !IsNullish(Get(row, "price_idr")) && Get(row, "price_idr") != Str("")
    ensures r.overallSoundScore.Some? ==> !IsNullish(Get(row, "overall_sound_score"))
  {
    Product(
      ToText(Get(row, "slug")),
      ToText(Get(row, "name")),
      ToText(Get(row, "highlights")),
      ToText(Get(row, "tier")),
      ToText(Get(row, "price_performance")),
      ReaderToNumber(Get(row, "price_idr")),
      ToText(Get(row, "microphone_performance")),
      ToText(Get(row, "review_summary")),
      ToText(Get(row, "bluetooth_codec")),
      ToText(Get(row, "battery_life")),
      ToText(Get(row, "anc_level")),
      ToText(Get(row, "transparency_mode")),
      ToText(Get(row, "equalizer_type")),
      ReaderToNumber(Get(row, "overall_sound_score")),
      ReaderToNumber(Get(row, "bass_score")),
      ReaderToNumber(Get(row, "low_mid_score")),
      ReaderToNumber(Get(row, "high_mid_score")),
      ReaderToNumber(Get(row, "treble_score")),
      ReaderToNumber(Get(row, "vocal_score")),
      ReaderToNumber(Get(row, "soundstage_score")),
      ReaderToNumber(Get(row, "separation_score")),
      ReaderToNumber(Get(row, "imaging_score")),
      ReaderToNumber(Get(row, "timbre_score")),
      ReaderToNumber(Get(row, "punch_score")),
      ReaderToNumber(Get(row, "clarity_score")),
      ToText(Get(row, "gaming_mode")),
      ToText(Get(row, "sound_tuning")),
      ToText(Get(row, "ip_rating")),
      ToText(Get(row, "multipoint")),
      ToText(Get(row, "recommended_eartips")))
  }

  /** A stored number reads back as itself; an absent one as SQL `NULL`. */
  function NumberCell(v: Option<Dec>): Cell {
    if v.Some? then NumCell(v.value) else Null
  }

  /** `row` holds the product's values: its text as strings, its numbers as numbers or SQL `NULL`. */
  predicate Holds(row: Row, p: Product) {
    && Get(row, "slug") == Str(p.slug)
    && Get(row, "name") == Str(p.name)
    && Get(row, "highlights") == Str(p.highlights)
    && Get(row, "tier") == Str(p.tier)
    && Get(row, "price_performance") == Str(p.pricePerformance)
    && Get(row, "price_idr") == NumberCell(p.priceIdr)
    && Get(row, "microphone_performance") == Str(p.microphonePerformance)
    && Get(row, "review_summary") == Str(p.reviewSummary)
    && Get(row, "bluetooth_codec") == Str(p.bluetoothCodec)
    && Get(row, "battery_life") == Str(p.batteryLife)
    && Get(row, "anc_level") == Str(p.ancLevel)
    && Get(row, "transparency_mode") == Str(p.transparencyMode)
    && Get(row, "equalizer_type") == Str(p.equalizerType)
    && Get(row, "overall_sound_score") == NumberCell(p.overallSoundScore)
    && Get(row, "bass_score") == NumberCell(p.bassScore)
    && Get(row, "low_mid_score") == NumberCell(p.lowMidScore)
    && Get(row, "high_mid_score") == NumberCell(p.highMidScore)
    && Get(row, "treble_score") == NumberCell(p.trebleScore)
    && Get(row, "vocal_score") == NumberCell(p.vocalScore)
    && Get(row, "soundstage_score") == NumberCell(p.soundstageScore)
    && Get(row, "separation_score") == NumberCell(p.separationScore)
    && Get(row, "imaging_score") == NumberCell(p.imagingScore)
    && Get(row, "timbre_score") == NumberCell(p.timbreScore)
    && Get(row, "punch_score") == NumberCell(p.punchScore)
    && Get(row, "clarity_score") == NumberCell(p.clarityScore)
    && Get(row, "gaming_mode") == Str(p.gamingMode)
    && Get(row, "sound_tuning") == Str(p.soundTuning)
    && Get(row, "ip_rating") == Str(p.ipRating)
    && Get(row, "multipoint") == Str(p.multipoint)
    && Get(row, "recommended_eartips") == Str(p.recommendedEartips)
  }

  lemma NumberCellReads(v: Option<Dec>)
    ensures ReaderToNumber(NumberCell(v)) == v
  {
  }

  /** A row holding a product's values reads back as exactly that product. */
  lemma MapRowToProductRoundTrip(row: Row, p: Product)
    requires Holds(row, p)
    ensures MapRowToProduct(row) == p
  {
    TextReads(p.slug);
    TextReads(p.name);
    TextReads(p.highlights);
    TextReads(p.tier);
    TextReads(p.pricePerformance);
    NumberCellReads(p.priceIdr);
    TextReads(p.microphonePerformance);
    TextReads(p.reviewSummary);
    TextReads(p.bluetoothCodec);
    TextReads(p.batteryLife);
    TextReads(p.ancLevel);
    TextReads(p.transparencyMode);
    TextReads(p.equalizerType);
    NumberCellReads(p.overallSoundScore);
    NumberCellReads(p.bassScore);
    NumberCellReads(p.lowMidScore);
    NumberCellReads(p.highMidScore);
    NumberCellReads(p.trebleScore);
    NumberCellReads(p.vocalScore);
    NumberCellReads(p.soundstageScore);
    NumberCellReads(p.separationScore);
    NumberCellReads(p.imagingScore);
    NumberCellReads(p.timbreScore);
    NumberCellReads(p.punchScore);
    NumberCellReads(p.clarityScore);
    TextReads(p.gamingMode);
    TextReads(p.soundTuning);
    TextReads(p.ipRating);
    TextReads(p.multipoint);
    TextReads(p.recommendedEartips);
  }

  lemma TextReads(t: string)
    ensures ToText(Str(t)) == t
  {
  }

  /** A row with none of the columns reads as a product with empty text and no numbers. */
  lemma EmptyRowProduct()
    ensures MapRowToProduct(map[]) == Product(
      "", "", "", "", "", None, "", "", "", "", "", "", "",
      None, None, None, None, None, None, None, None, None, None, None, None,
      "", "", "", "", "")
  {
  }

  const ProductsSql := "SELECT " + Join(SelectFields, ", ") + " FROM tws_products"

  const ProductBySlugSql := "SELECT " + Join(SelectFields, ", ") + " FROM tws_products WHERE slug = ? LIMIT 1"

  /** `getTwsProducts`: every stored row as a product, in the order the database returns them; a missing result set reads as empty. */
  function GetTwsProducts(db: Datasets.AllRows): (r: seq<Product>)
    ensures db(Datasets.Query(ProductsSql, [])).None? ==> r == []
    ensures db(Datasets.Query(ProductsSql, [])).Some? ==>
      var rows := db(Datasets.Query(ProductsSql, [])).value;
      |r| == |rows| && forall i :: 0 <= i < |rows| ==> r[i] == MapRowToProduct(rows[i])
  {
    var rows := db(Datasets.Query(ProductsSql, [])).GetOr([]);
    seq(|rows|, i requires 0 <= i < |rows| => MapRowToProduct(rows[i]))
  }

  /** Every row of the product table holding a product reads back, in order, as exactly those products. */
  lemma ProductsReadBack(db: Datasets.AllRows, ps: seq<Product>)
    requires db(Datasets.Query(ProductsSql, [])).Some?
    requires |db(Datasets.Query(ProductsSql, [])).value| == |ps|
    requires forall i :: 0 <= i < |ps| ==> Holds(db(Datasets.Query(ProductsSql, [])).value[i], ps[i])
    ensures GetTwsProducts(db) == ps
  {
    var rows := db(Datasets.Query(ProductsSql, [])).value;
    forall i | 0 <= i < |ps|
      ensures GetTwsProducts(db)[i] == ps[i]
    {
      MapRowToProductRoundTrip(rows[i], ps[i]);
    }
  }

  /** `getProductBySlug`: the slug travels only as the bound parameter. */
  function GetProductBySlug(first: Datasets.FirstRow, slug: string): (r: Option<Product>)
    ensures r.Some? <==> first(Datasets.Query(ProductBySlugSql, [slug])).Some?
    ensures r.Some? ==> r.value == MapRowToProduct(first(Datasets.Query(ProductBySlugSql, [slug])).value)
  {
    match first(Datasets.Query(ProductBySlugSql, [slug]))
    case None => None
    case Some(row) => Some(MapRowToProduct(row))
  }

  /** Looking a stored product up by its slug gives that product back. */
  lemma ProductBySlugFindsStored(first: Datasets.FirstRow, p: Product)
    requires first(Datasets.Query(ProductBySlugSql, [p.slug])).Some?
    requires Holds(first(Datasets.Query(ProductBySlugSql, [p.slug])).value, p)
    ensures GetProductBySlug(first, p.slug) == Some(p)
  {
    MapRowToProductRoundTrip(first(Datasets.Query(ProductBySlugSql, [p.slug])).value, p);
  }
}
