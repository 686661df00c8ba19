/**
 * Tier classification for display: the badge variant and the gradient style
 * a tier gets, and the placeholder for empty text on the product cards.
 */
module Tiers {
  import opened Text
  import SearchFilter

  /** `getTierVariant`'s results: `'ss' | 's' | 'a' | 'b' | 'default'`. */
  datatype Variant = SsVariant | SVariant | AVariant | BVariant | DefaultVariant

  function VariantName(v: Variant): string {
    match v
    case SsVariant => "ss"
    case SVariant => "s"
    case AVariant => "a"
    case BVariant => "b"
    case DefaultVariant => "default"
  }

  /**
   * `getTierVariant`: on the upper-cased tier, `SS`/`SSS`, exactly `S`, then
   * an `A` or `B` prefix; each variant is chosen exactly by its own test.
   */
  function TierVariant(tier: string): (r: Variant)
    ensures r == SsVariant <==> Upper(tier) == "SS" || Upper(tier) == "SSS"
    ensures r == SVariant <==> Upper(tier) == "S"
    ensures r == AVariant <==> StartsWith(Upper(tier), "A")
    ensures r == BVariant <==> StartsWith(Upper(tier), "B")
  {
    var t := Upper(tier);
    if t == "SS" || t == "SSS" then SsVariant
    else if t == "S" then SVariant
    else if StartsWith(t, "A") then AVariant
    else if StartsWith(t, "B") then BVariant
    else DefaultVariant
  }

  const GradientPrefix := "bg-gradient-to-br from-"

  /** A diagonal gradient class list: start colour, end colour, text colour. */
  function Gradient(from: string, to: string, text: string): (r: string)
    ensures |r| > |GradientPrefix| && r[3] == 'g'
    ensures from != "" ==> r[|GradientPrefix|] == from[0]
  {
    GradientPrefix + from + " to-" + to + " text-" + text
  }

  const GoldStyle := Gradient("amber-400", "yellow-500", "ink")
  const SilverStyle := Gradient("slate-300", "slate-400", "ink")
  const AStyle := Gradient("orange-400", "amber-500", "ink")
  const BStyle := Gradient("emerald-400", "emerald-500", "white")
  const PlainStyle := "bg-white/10" + " text-white/70" + " border border-white/20"

  /** The circle style that goes with each badge variant. */
  function VariantStyle(v: Variant): string {
    match v
    case SsVariant => GoldStyle
    case SVariant => SilverStyle
    case AVariant => AStyle
    case BVariant => BStyle
    case DefaultVariant => PlainStyle
  }

  /** `getTierStyles`: the card's tier circle, by the same tests as the badge, so always the badge variant's style. */
  function TierStyles(tier: string): (r: string)
    ensures r == VariantStyle(TierVariant(tier))
  {
    var t := Upper(tier);
    if t == "SS" || t == "SSS" then GoldStyle
    else if t == "S" then SilverStyle
    else if StartsWith(t, "A") then AStyle
    else if StartsWith(t, "B") then BStyle
    else PlainStyle
  }

  /** The variant names are distinct, so the variant is recoverable from its name. */
  lemma VariantNameInjective(a: Variant, b: Variant)
    ensures VariantName(a) == VariantName(b) <==> a == b
  {
    if a != b {
      assert VariantName(a)[0] != VariantName(b)[0] || |VariantName(a)| != |VariantName(b)|;
    }
  }

  /** The five styles are pairwise different. */
  lemma StylesDistinct()
    ensures GoldStyle != SilverStyle && GoldStyle != AStyle && GoldStyle != BStyle && GoldStyle != PlainStyle
    ensures SilverStyle != AStyle && SilverStyle != BStyle && SilverStyle != PlainStyle
    ensures AStyle != BStyle && AStyle != PlainStyle
    ensures BStyle != PlainStyle
  {
    assert PlainStyle[3] == 'w';
  }

  /** Two tiers share a card style exactly when they share a badge variant. */
  lemma SamePartition(a: string, b: string)
    ensures TierStyles(a) == TierStyles(b) <==> TierVariant(a) == TierVariant(b)
  {
    StylesDistinct();
  }

  lemma UpperIdempotent(s: string)
    ensures Upper(Upper(s)) == Upper(s)
  {
    assert forall i :: 0 <= i < |s| ==> UpperChar(UpperChar(s[i])) == UpperChar(s[i]);
  }

  /** Classification ignores case: a tier and its upper-cased form are treated alike. */
  lemma CaseInsensitive(tier: string)
    ensures TierVariant(tier) == TierVariant(Upper(tier))
    ensures TierStyles(tier) == TierStyles(Upper(tier))
  {
    UpperIdempotent(tier);
  }

  /**
   * `ss` and `sSs` are gold, only a bare `S` is silver: `S+` and `SA` get the
   * default, and so does the empty tier.
   */
  lemma VariantExamples()
    ensures TierVariant("ss") == SsVariant && TierVariant("sSs") == SsVariant
    ensures TierVariant("s") == SVariant
    ensures TierVariant("S+") == DefaultVariant && TierVariant("SA") == DefaultVariant
    ensures TierVariant("") == DefaultVariant
    ensures TierVariant("a-") == AVariant && TierVariant("B+") == BVariant
  {
    assert Upper("ss") == "SS";
    assert Upper("sSs") == "SSS";
    assert Upper("s") == "S";
    assert Upper("S+") == "S+";
    assert Upper("SA") == "SA";
    assert Upper("a-") == "A-";
    assert Upper("B+") == "B+";
  }

  /**
   * The badge agrees with the tier filter of the product list: choosing `A`
   * keeps exactly the products with an A badge, likewise `B`, and a gold or
   * silver badge is kept by `S`.
   */
  lemma VariantMatchesTierFilter(p: SearchFilter.Product)
    ensures SearchFilter.TierMatches(p, "A") <==> TierVariant(p.tier) == AVariant
    ensures SearchFilter.TierMatches(p, "B") <==> TierVariant(p.tier) == BVariant
    ensures TierVariant(p.tier) in {SsVariant, SVariant} ==> SearchFilter.TierMatches(p, "S")
  {
    var t := Upper(p.tier);
    if t == "SS" || t == "SSS" || t == "S" {
      assert t[0] == 'S';
    }
  }

  /** `displayValue`: empty text and `-` show as the placeholder, other text as it is. */
  function DisplayValue(value: string): (r: string)
    ensures r != "" && r != "-"
    ensures value != "" && value != "-" ==> r == value
    ensures value == "" || value == "-" ==> r == "—"
  {
    if value != "" && value != "-" then value else "—"
  }

  /** Showing a shown value again changes nothing. */
  lemma DisplayValueIdempotent(value: string)
    ensures DisplayValue(DisplayValue(value)) == DisplayValue(value)
  {
  }
}
