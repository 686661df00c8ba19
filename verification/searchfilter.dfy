/**
 * The product list's search, tier filter and sort: the list it hands to the
 * grid, the count it shows, and the tier buttons it offers.
 */
module SearchFilter {
  import opened Wrappers
  import opened Text
  import opened JsNumber
  import opened Filtering
  import opened Sorting
  import opened Orderings
  import Tws

  type Product = Tws.Product

  /** The tier selection that disables the tier filter. */
  const AllTiers := "all"

  /** `tierOrder`: best first. */
  const TierOrder: seq<string> := ["SS", "S", "A++", "A+", "A", "A-", "B+", "B", "B-", "C+", "C", "C-", "D", "E"]

  /** A tier's position in `tierOrder`, or its length for one not listed. */
  function Rank(t: string): (r: nat)
    ensures r <= |TierOrder|
    ensures r < |TierOrder| ==> TierOrder[r] == t
    ensures r == |TierOrder| <==> t !in TierOrder
  {
    IndexOf(TierOrder, t)
  }

  /** No tier is listed twice. */
  lemma TierOrderDistinct()
    ensures forall i, j :: 0 <= i < j < |TierOrder| ==> TierOrder[i] != TierOrder[j]
  {
  }

  /** Listed earlier means ranked lower. */
  lemma RankOfListed(i: nat)
    requires i < |TierOrder|
    ensures Rank(TierOrder[i]) == i
  {
    TierOrderDistinct();
  }

  /** Some product carries tier `t` (blank tiers are skipped). */
  predicate Present(products: seq<Product>, t: string) {
    t != "" && exists i :: 0 <= i < |products| && products[i].tier == t
  }

  function PresentIn(products: seq<Product>): string -> bool {
    t => Present(products, t)
  }

  /** `tiers`: `'all'`, then the listed tiers some product carries, best first. */
  function Tiers(products: seq<Product>): (r: seq<string>)
    ensures |r| >= 1 && r[0] == AllTiers
    ensures forall t :: t in r[1..] <==> t in TierOrder && Present(products, t)
  {
    var sorted := Filter(TierOrder, PresentIn(products));
    FilterMembers(TierOrder, PresentIn(products));
    assert ([AllTiers] + sorted)[1..] == sorted;
    [AllTiers] + sorted
  }

  /** The offered tiers follow `tierOrder`, whatever order the products come in. */
  lemma TiersInOrder(products: seq<Product>)
    ensures var r := Tiers(products);
      forall i, j :: 1 <= i < j < |r| ==> Rank(r[i]) < Rank(r[j])
  {
    TierOrderRanked();
    FilterKeepsOrder(TierOrder, PresentIn(products), RankedBefore);
    var r := Tiers(products);
    var sorted := Filter(TierOrder, PresentIn(products));
    forall i, j | 1 <= i < j < |r| ensures Rank(r[i]) < Rank(r[j]) {
      assert r[i] == sorted[i - 1] && r[j] == sorted[j - 1];
      assert RankedBefore(sorted[i - 1], sorted[j - 1]);
    }
  }

  predicate RankedBefore(a: string, b: string) {
    Rank(a) < Rank(b)
  }

  lemma TierOrderRanked()
    ensures Sorted(TierOrder, RankedBefore)
  {
    forall i, j | 0 <= i < j < |TierOrder| ensures RankedBefore(TierOrder[i], TierOrder[j]) {
      RankOfListed(i);
      RankOfListed(j);
    }
  }

  /** The search test: the query occurs in the lower-cased name, highlights, review summary or sound tuning. */
  predicate ProductMatches(p: Product, query: string) {
    || ContainsAt(Lower(p.name), query)
    || ContainsAt(Lower(p.highlights), query)
    || ContainsAt(Lower(p.reviewSummary), query)
    || ContainsAt(Lower(p.soundTuning), query)
  }

  /** The tier test: the upper-cased tier starts with the selection. */
  predicate TierMatches(p: Product, tier: string) {
    StartsWith(Upper(p.tier), tier)
  }

  function Searcher(query: string): Product -> bool {
    p => ProductMatches(p, query)
  }

  function TierTester(tier: string): Product -> bool {
    p => TierMatches(p, tier)
  }

  /** The search step: a blank search keeps every product. */
  function SearchProducts(products: seq<Product>, search: string): (r: seq<Product>)
    ensures IsBlank(search) ==> r == products
    ensures forall x :: (multiset(r)[x] ==
      if IsBlank(search) || ProductMatches(x, Lower(search)) then multiset(products)[x] else 0)
  {
    if IsBlank(search) then products else Filter(products, Searcher(Lower(search)))
  }

  /** The tier step: `'all'` keeps every product. */
  function TierProducts(products: seq<Product>, tier: string): (r: seq<Product>)
    ensures tier == AllTiers ==> r == products
    ensures forall x :: (multiset(r)[x] ==
      if tier == AllTiers || TierMatches(x, tier) then multiset(products)[x] else 0)
  {
    if tier == AllTiers then products else Filter(products, TierTester(tier))
  }

  /** The products both steps keep, in their original order. */
  function Visible(products: seq<Product>, search: string, tier: string): (r: seq<Product>)
    ensures |r| <= |products|
    ensures forall x :: (multiset(r)[x] ==
      if (IsBlank(search) || ProductMatches(x, Lower(search))) && (tier == AllTiers || TierMatches(x, tier))
      then multiset(products)[x] else 0)
  {
    TierProducts(SearchProducts(products, search), tier)
  }

  /** Applying the tier filter first would select the same products in the same order. */
  lemma StepsCommute(products: seq<Product>, search: string, tier: string)
    ensures Visible(products, search, tier) == SearchProducts(TierProducts(products, tier), search)
  {
    if !IsBlank(search) && tier != AllTiers {
      FilterCommutes(products, Searcher(Lower(search)), TierTester(tier));
    }
  }

  /** The sort menu's choices. */
  datatype SortOption = Score | PriceLow | PriceHigh | Name

  function ScoreOf(): Product -> Option<Dec> {
    (p: Product) => p.overallSoundScore
  }

  function PriceOf(): Product -> Option<Dec> {
    (p: Product) => p.priceIdr
  }

  function NameOf(): Product -> string {
    (p: Product) => p.name
  }

  /** The comparator of each choice, read as "may precede"; `collate` is `localeCompare`. */
  function ProductOrder(sort: SortOption, collate: (string, string) -> bool): (r: (Product, Product) -> bool)
    ensures (sort == Name ==> TotalPreorder(collate)) ==> TotalPreorder(r)
  {
    match sort
    case Score =>
      assert TotalPreorder(ByKey(ScoreOf(), NotAfter(DescendingMissingZero))) by {
        DescendingMissingZeroPreorder();
        ByKeyPreorder(ScoreOf(), NotAfter(DescendingMissingZero));
      }
      ByKey(ScoreOf(), NotAfter(DescendingMissingZero))
    case PriceLow =>
      assert TotalPreorder(ByKey(PriceOf(), NotAfter(AscendingMissingLast))) by {
        AscendingMissingLastPreorder();
        ByKeyPreorder(PriceOf(), NotAfter(AscendingMissingLast));
      }
      ByKey(PriceOf(), NotAfter(AscendingMissingLast))
    case PriceHigh =>
      assert TotalPreorder(ByKey(PriceOf(), NotAfter(DescendingMissingZero))) by {
        DescendingMissingZeroPreorder();
        ByKeyPreorder(PriceOf(), NotAfter(DescendingMissingZero));
      }
      ByKey(PriceOf(), NotAfter(DescendingMissingZero))
    case Name =>
      assert TotalPreorder(collate) ==> TotalPreorder(ByKey(NameOf(), collate)) by {
        if TotalPreorder(collate) { ByKeyPreorder(NameOf(), collate); }
      }
      ByKey(NameOf(), collate)
  }

  /** The list handed to `onFilter`: the visible products, sorted. */
  function Emitted(products: seq<Product>, search: string, tier: string, sort: SortOption,
                   collate: (string, string) -> bool): (r: seq<Product>)
    ensures multiset(r) == multiset(Visible(products, search, tier))
  {
    SortBy(Visible(products, search, tier), ProductOrder(sort, collate))
  }

  /** `filteredCount` */
  function FilteredCount(products: seq<Product>, search: string, tier: string): (n: nat)
    ensures n <= |products|
    ensures IsBlank(search) && tier == AllTiers ==> n == |products|
  {
    |Visible(products, search, tier)|
  }

  /** The count shown is the length of the list handed on, whatever the sort. */
  lemma CountMatchesEmitted(products: seq<Product>, search: string, tier: string, sort: SortOption,
                            collate: (string, string) -> bool)
    ensures FilteredCount(products, search, tier) == |Emitted(products, search, tier, sort, collate)|
  {
    assert |multiset(Emitted(products, search, tier, sort, collate))| == |multiset(Visible(products, search, tier))|;
  }

  /** Best score: scores fall, a missing score counting as zero. */
  lemma ScoreOrder(products: seq<Product>, search: string, tier: string, collate: (string, string) -> bool)
    ensures var r := Emitted(products, search, tier, Score, collate);
      forall i, j :: 0 <= i < j < |r| ==> ZeroIfMissing(r[j].overallSoundScore) <= ZeroIfMissing(r[i].overallSoundScore)
  {
    var r := Emitted(products, search, tier, Score, collate);
    var le := ProductOrder(Score, collate);
    SortBySorted(Visible(products, search, tier), le);
    forall i, j | 0 <= i < j < |r|
      ensures ZeroIfMissing(r[j].overallSoundScore) <= ZeroIfMissing(r[i].overallSoundScore)
    {
      assert le(r[i], r[j]);
      DescendingMissingZeroMeaning(r[i].overallSoundScore, r[j].overallSoundScore);
    }
  }

  /** Low to high: a priced product never follows an unpriced one, and prices rise. */
  lemma PriceLowOrder(products: seq<Product>, search: string, tier: string, collate: (string, string) -> bool)
    ensures var r := Emitted(products, search, tier, PriceLow, collate);
      forall i, j :: 0 <= i < j < |r| ==>
        && (r[i].priceIdr.None? ==> r[j].priceIdr.None?)
        && (r[i].priceIdr.Some? && r[j].priceIdr.Some? ==> Value(r[i].priceIdr.value) <= Value(r[j].priceIdr.value))
  {
    var r := Emitted(products, search, tier, PriceLow, collate);
    var le := ProductOrder(PriceLow, collate);
    SortBySorted(Visible(products, search, tier), le);
    forall i, j | 0 <= i < j < |r|
      ensures && (r[i].priceIdr.None? ==> r[j].priceIdr.None?)
              && (r[i].priceIdr.Some? && r[j].priceIdr.Some? ==> Value(r[i].priceIdr.value) <= Value(r[j].priceIdr.value))
    {
      assert le(r[i], r[j]);
      AscendingMissingLastMeaning(r[i].priceIdr, r[j].priceIdr);
    }
  }

  /** High to low: prices fall, a missing price counting as zero. */
  lemma PriceHighOrder(products: seq<Product>, search: string, tier: string, collate: (string, string) -> bool)
    ensures var r := Emitted(products, search, tier, PriceHigh, collate);
      forall i, j :: 0 <= i < j < |r| ==> ZeroIfMissing(r[j].priceIdr) <= ZeroIfMissing(r[i].priceIdr)
  {
    var r := Emitted(products, search, tier, PriceHigh, collate);
    var le := ProductOrder(PriceHigh, collate);
    SortBySorted(Visible(products, search, tier), le);
    forall i, j | 0 <= i < j < |r|
      ensures ZeroIfMissing(r[j].priceIdr) <= ZeroIfMissing(r[i].priceIdr)
    {
      assert le(r[i], r[j]);
      DescendingMissingZeroMeaning(r[i].priceIdr, r[j].priceIdr);
    }
  }

  /** By name: with a consistent collation, names are in collation order. */
  lemma NameOrder(products: seq<Product>, search: string, tier: string, collate: (string, string) -> bool)
    requires TotalPreorder(collate)
    ensures var r := Emitted(products, search, tier, Name, collate);
      forall i, j :: 0 <= i < j < |r| ==> collate(r[i].name, r[j].name)
  {
    var r := Emitted(products, search, tier, Name, collate);
    var le := ProductOrder(Name, collate);
    SortBySorted(Visible(products, search, tier), le);
    forall i, j | 0 <= i < j < |r| ensures collate(r[i].name, r[j].name) {
      assert le(r[i], r[j]);
    }
  }

  /** Products the chosen order cannot tell apart keep their original relative order. */
  lemma EmittedStable(products: seq<Product>, search: string, tier: string, sort: SortOption,
                      collate: (string, string) -> bool, c: Product)
    requires sort == Name ==> TotalPreorder(collate)
    ensures var le := ProductOrder(sort, collate);
      TiedWith(Emitted(products, search, tier, sort, collate), c, le) == TiedWith(Visible(products, search, tier), c, le)
  {
    SortByStable(Visible(products, search, tier), c, ProductOrder(sort, collate));
  }

  /**
   * The tier test is a prefix test on the upper-cased tier: choosing `A`
   * also keeps `a+` and `A-`, and choosing `S` keeps `SS`, but `B` never
   * keeps an `A` tier.
   */
  lemma TierPrefixExamples(p: Product)
    ensures TierMatches(p.(tier := "a+"), "A")
    ensures TierMatches(p.(tier := "A-"), "A")
    ensures TierMatches(p.(tier := "SS"), "S")
    ensures !TierMatches(p.(tier := "A"), "B")
    ensures !TierMatches(p.(tier := ""), "S")
  {
    assert Upper("a+") == "A+";
    assert Upper("A-") == "A-";
    assert Upper("SS") == "SS";
    assert Upper("A") == "A";
  }
}
