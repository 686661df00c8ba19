/**
 * The one-sheet converter: the primary worksheet's rows become product
 * records (camel-case fields) with a de-duplicated slug each. Serialising
 * the records and writing the file are left to the caller.
 */
module ConvertTws {
  import opened Wrappers
  import opened Text
  import opened JsNumber
  import opened Cells
  import opened Identifiers
  import opened Dedup
  import opened Coercion
  import SeedGen

  /** The sheet to convert: the one named `TWS`, else the first; none in an empty workbook. */
  function PickSheet(names: seq<string>): (r: Option<string>)
    ensures r.None? <==> names == []
    ensures r.Some? ==> r.value in names
    ensures "TWS" in names ==> r == Some("TWS")
    ensures "TWS" !in names && names != [] ==> r == Some(names[0])
  {
    if "TWS" in names then Some("TWS") else if names == [] then None else Some(names[0])
  }

  /** One converted product; text fields keep the raw cell, numeric fields go through `toNumber`. */
  datatype Record = Record(
    slug: string,
    name: Cell,
    highlights: string,
    tier: Cell,
    pricePerformance: Cell,
    priceIdr: Option<Dec>,
    microphonePerformance: Cell,
    reviewSummary: Cell,
    bluetoothCodec: Cell,
    batteryLife: Cell,
    ancLevel: Cell,
    transparencyMode: Cell,
    equalizerType: Cell,
    overallSoundScore: Option<Dec>,
    bassScore: Option<Dec>,
    lowMidScore: Option<Dec>,
    highMidScore: Option<Dec>,
    trebleScore: Option<Dec>,
    vocalScore: Option<Dec>,
    soundstageScore: Option<Dec>,
    separationScore: Option<Dec>,
    imagingScore: Option<Dec>,
    timbreScore: Option<Dec>,
    punchScore: Option<Dec>,
    clarityScore: Option<Dec>,
    gamingMode: Cell,
    soundTuning: Cell,
    ipRating: Cell,
    multipoint: Cell,
    recommendedEartips: Cell)

  const Fallback := "product"

  /** `slugify(row['TWS']) || 'product'`; a missing cell is slugified as the text `undefined`. */
  function SlugBase(row: Row): (r: string)
    ensures r != "" && SlugShape(r)
    ensures Slugify(CellText(Get(row, "TWS"))) != "" ==> r == Slugify(CellText(Get(row, "TWS")))
    ensures Slugify(CellText(Get(row, "TWS"))) == "" ==> r == Fallback
  {
    var raw := CellText(Get(row, "TWS"));
    SlugifyShape(raw);
    var base := Slugify(raw);
    assert SlugShape(Fallback);
    if base != "" then base else Fallback
  }

  /** A name that is already a slug is its own base; a name with no slug, such as `!!`, gives `product`. */
  lemma SlugBaseOfName(row: Row)
    ensures Get(row, "TWS").Str? && Get(row, "TWS").s != "" && SlugShape(Get(row, "TWS").s) ==>
      SlugBase(row) == Get(row, "TWS").s
    ensures Get(row, "TWS") == Str("!!") ==> SlugBase(row) == Fallback
  {
    var c := Get(row, "TWS");
    if c.Str? && SlugShape(c.s) {
      SlugifyFixed(c.s);
    }
    if c == Str("!!") {
      SlugifyMayBeEmpty();
    }
  }

  function SlugBases(rows: seq<Row>): (r: seq<string>)
    ensures |r| == |rows|
    ensures forall j :: 0 <= j < |r| ==> r[j] == SlugBase(rows[j])
  {
    seq(|rows|, j requires 0 <= j < |rows| => SlugBase(rows[j]))
  }

  function OrEmpty(c: Cell): Cell {
    if IsNullish(c) then Str("") else c
  }

  function ToRecord(row: Row, slug: string): Record {
    Record(
      slug,
      Get(row, "TWS"),
      "",
      Get(row, "Tier"),
      Get(row, "Value for Money"),
      ToNumber(Get(row, "Price")),
      Get(row, "Microphone Test"),
      Get(row, "Review Notes"),
      Get(row, "Bluetooth Codec"),
      Get(row, "Battery Life (No ANC)"),
      Get(row, "ANC Performance (dB)"),
      Get(row, "Transparency Mode"),
      Get(row, "Equalizer"),
      ToNumber(Get(row, "Overall Sound Quality")),
      ToNumber(Get(row, "Bass")),
      ToNumber(Get(row, "Lo Mid")),
      ToNumber(Get(row, "Hi Mid")),
      ToNumber(Get(row, "Treble")),
      ToNumber(Get(row, "Vocal")),
      ToNumber(Get(row, "Soundstage")),
      ToNumber(Get(row, "Separation")),
      ToNumber(Get(row, "Imaging")),
      ToNumber(Get(row, "Timbre")),
      ToNumber(Get(row, "Punch")),
      ToNumber(Get(row, "Clarity & Resolution")),
      Get(row, "Gaming Mode Low Latency"),
      Get(row, "Sound Tuning"),
      Get(row, "IP Rating"),
      Get(row, "Multipoint Connection"),
      OrEmpty(Get(row, "Recommended Eartips")))
  }

  /** `rows.map(...)` with one slug counter shared by the whole run: a record per row, each with a non-empty, well-formed slug. */
  function Convert(rows: seq<Row>): (r: seq<Record>)
    ensures |r| == |rows|
    ensures forall j :: 0 <= j < |r| ==> r[j].slug != "" && SlugShape(r[j].slug)
  {
    var slugs := ClaimAll(map[], SlugBases(rows), '-').0;
    var r := seq(|rows|, j requires 0 <= j < |rows| => ToRecord(rows[j], slugs[j]));
    assert forall j :: 0 <= j < |r| ==> r[j].slug != "" && SlugShape(r[j].slug) by {
      forall j | 0 <= j < |r|
        ensures r[j].slug != "" && SlugShape(r[j].slug)
      {
        SeedGen.ClaimedSlugShape(SlugBases(rows), j);
      }
    }
    r
  }

  /**
   * Record `j` comes from row `j`: its name is the raw `TWS` cell, its
   * highlights empty, its eartips the `Recommended Eartips` cell with a
   * nullish one read as `''`, its price the `toNumber` of the `Price` cell,
   * and its slug a non-empty, well-formed slug.
   */
  lemma ConvertRecord(rows: seq<Row>, j: nat)
    requires j < |rows|
    ensures var r := Convert(rows)[j];
      && r.name == Get(rows[j], "TWS")
      && r.highlights == ""
      && r.recommendedEartips == (if IsNullish(Get(rows[j], "Recommended Eartips")) then Str("") else Get(rows[j], "Recommended Eartips"))
      && !IsNullish(r.recommendedEartips)
      && r.priceIdr == ToNumber(Get(rows[j], "Price"))
      && r.slug != "" && SlugShape(r.slug)
  {
    var slugs := ClaimAll(map[], SlugBases(rows), '-').0;
    assert Convert(rows)[j] == ToRecord(rows[j], slugs[j]);
  }

  /** Without slug bases that already end in `-<digits>`, the converted slugs are pairwise distinct. */
  lemma ConvertSlugsDistinct(rows: seq<Row>)
    requires forall j :: 0 <= j < |rows| ==> !EndsWithCounter(SlugBase(rows[j]), '-')
    ensures forall i, j :: 0 <= i < j < |rows| ==> Convert(rows)[i].slug != Convert(rows)[j].slug
  {
    ClaimAllDistinct(SlugBases(rows), '-');
  }

  /** A row whose `TWS` cell is a non-empty text with a non-empty slug gets the same slug base as in the seed generator. */
  lemma SlugBaseAgrees(row: Row, j: nat)
    requires Get(row, "TWS").Str? && Slugify(Get(row, "TWS").s) != ""
    ensures SlugBase(row) == SeedGen.SlugBase(Get(row, "TWS"), SeedGen.RowFallback("tws", j))
  {
  }

  /**
   * When every row has a named product whose slug is not empty, the converter
   * and the seed generator assign every row the same slug.
   */
  lemma ConvertSlugsMatchSeed(sheet: SeedGen.Sheet)
    requires sheet.name == SeedGen.PrimarySheet
    requires forall j :: 0 <= j < |sheet.rows| ==>
      Get(sheet.rows[j], "TWS").Str? && Slugify(Get(sheet.rows[j], "TWS").s) != ""
    ensures forall j :: 0 <= j < |sheet.rows| ==> Convert(sheet.rows)[j].slug == SeedGen.SheetSlugs(sheet)[j]
  {
    forall j | 0 <= j < |sheet.rows|
      ensures SlugBases(sheet.rows)[j] == SeedGen.SlugBases(sheet)[j]
    {
      SlugBaseAgrees(sheet.rows[j], j);
    }
    assert SlugBases(sheet.rows) == SeedGen.SlugBases(sheet);
  }

  /** A nameless row: the seed generator falls back to `tws-<n>`, the converter to `product`. */
  lemma NamelessSlugsDiffer(row: Row)
    requires Get(row, "TWS") == Str("")
    ensures SlugBase(row) == "product"
    ensures SeedGen.SlugBase(Get(row, "TWS"), SeedGen.RowFallback("tws", 0)) == "tws-1"
  {
    assert Slugify("") == "";
    assert SeedGen.RowFallback("tws", 0) == "tws-1" by {
      assert NatText(1) == "1";
    }
    FallbackSlugKept();
  }

  lemma FallbackSlugKept()
    ensures Slugify("tws-1") == "tws-1"
  {
    var t := "tws-1";
    assert Clean(t, '-') by {
      assert forall i :: 0 <= i < |t| ==> IsLowerAlnum(t[i]) || t[i] == '-';
    }
    SlugifyFixed(t);
  }
}
