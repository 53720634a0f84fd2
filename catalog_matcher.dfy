/** searchProductsByCriteria and the product filter of searchByImage: ordered
    filters over a catalog, and the similarity each tier attaches to its hits.
    The catalog is a parameter; nothing here modifies it. */
module CatalogMatcher {
  import opened Text
  import opened Seqs
  import opened QueryAnalyzer

  /** A catalog entry. A missing prices object is the empty map. */
  datatype Product = Product(
    name: string,
    category: Option<string>,
    description: Option<string>,
    prices: map<string, int>,
    price: Option<int>)

  /** A product with the similarity attached to it, in hundredths. */
  datatype Scored = Scored(product: Product, similarity: int)

  /** The similarities 0.8, 0.7 and 0.5 of the three tiers, in hundredths. */
  const ExactScore: int := 80
  const KeywordScore: int := 70
  const DefaultScore: int := 50

  /** How many entries the last tier, and the image search, keep. */
  const Limit: nat := 10

  /** The term the fallback tier searches for when no type was detected. */
  const DefaultTerm: string := "sản phẩm"

  /** A string in a JavaScript condition: present and not empty. */
  predicate IsSet(s: Option<string>) {
    s.Some? && s.value != ""
  }

  /** field?.toLowerCase().includes(p), which is false when field is absent. */
  predicate FieldIncludes(field: Option<string>, p: string) {
    field.Some? && Contains(Lower(field.value), p)
  }

  function Abs(x: int): nat {
    if x < 0 then -x else x
  }

  /** prices['250'] || price || 0: the first of them that is present and not zero. */
  function EffectivePrice(p: Product): int {
    if "250" in p.prices && p.prices["250"] != 0 then p.prices["250"]
    else if p.price.Some? && p.price.value != 0 then p.price.value
    else 0
  }

  // ---------------------------------------------------------------------
  // Tier 1: the type filter, then the price filter

  /** The type filter of tier 1; productType is compared as it is, not lower-cased. */
  predicate MatchesType(p: Product, productType: string) {
    Contains(Lower(p.name), productType) || FieldIncludes(p.category, productType)
  }

  /** The price filter: the switch on the operator, compared exactly. */
  predicate MatchesPrice(p: Product, range: PriceRange) {
    var price := EffectivePrice(p);
    if range.operator == "dưới" then price < range.amount
    else if range.operator == "trên" then price > range.amount
    else if range.operator == "khoảng" then 5 * Abs(price - range.amount) < range.amount
    else true
  }

  function ByType(products: seq<Product>, analysis: Analysis): seq<Product> {
    if IsSet(analysis.productType) then Filter(products, p => MatchesType(p, analysis.productType.value))
    else products
  }

  function ByPrice(products: seq<Product>, analysis: Analysis): seq<Product> {
    match analysis.priceRange
    case None => products
    case Some(range) => Filter(products, p => MatchesPrice(p, range))
  }

  /** The products that survive both filters of tier 1. */
  function Exact(catalog: seq<Product>, analysis: Analysis): seq<Product> {
    ByPrice(ByType(catalog, analysis), analysis)
  }

  // ---------------------------------------------------------------------
  // Tier 2: the keyword fallback over the whole catalog

  /** searchQuery.toLowerCase(), where searchQuery is the type or "sản phẩm". */
  function SearchTerm(analysis: Analysis): string {
    Lower(if IsSet(analysis.productType) then analysis.productType.value else DefaultTerm)
  }

  predicate MatchesKeyword(p: Product, term: string) {
    Contains(Lower(p.name), term) || FieldIncludes(p.category, term) || FieldIncludes(p.description, term)
  }

  function KeywordMatches(catalog: seq<Product>, analysis: Analysis): seq<Product> {
    var term := SearchTerm(analysis);
    Filter(catalog, p => MatchesKeyword(p, term))
  }

  // ---------------------------------------------------------------------
  // Scoring and the three tiers together

  /** products.map(p => ({...p, similarity: score})). */
  function WithScore(products: seq<Product>, score: int): (r: seq<Scored>)
    ensures |r| == |products|
    ensures forall i :: 0 <= i < |r| ==> r[i].similarity == score
    ensures Unscored(r) == products
  {
    seq(|products|, i requires 0 <= i < |products| => Scored(products[i], score))
  }

  /** The products of a scored list, without their similarity. */
  function Unscored(r: seq<Scored>): seq<Product> {
    seq(|r|, i requires 0 <= i < |r| => r[i].product)
  }

  /** The first tier whose list is non-empty answers; the last one is the
      first ten entries of the catalog. One answer never mixes scores, keeps
      the catalog's order, and is empty only for an empty catalog. */
  function SearchProductsByCriteria(analysis: Analysis, catalog: seq<Product>): (r: seq<Scored>)
    ensures r == [] <==> catalog == []
    ensures forall i :: 0 <= i < |r| ==> r[i].similarity == r[0].similarity
    ensures r != [] ==> r[0].similarity == ExactScore || r[0].similarity == KeywordScore || r[0].similarity == DefaultScore
    ensures IsSubsequence(Unscored(r), catalog)
  {
    var exact := Exact(catalog, analysis);
    var keyword := KeywordMatches(catalog, analysis);
    ExactIsSubsequence(catalog, analysis);
    FilterIsSubsequence(catalog, p => MatchesKeyword(p, SearchTerm(analysis)));
    PrefixIsSubsequence(catalog, Min(Limit, |catalog|));
    if |exact| > 0 then WithScore(exact, ExactScore)
    else if |keyword| > 0 then WithScore(keyword, KeywordScore)
    else WithScore(catalog[..Min(Limit, |catalog|)], DefaultScore)
  }

  lemma ExactIsSubsequence(catalog: seq<Product>, analysis: Analysis)
    ensures IsSubsequence(Exact(catalog, analysis), catalog)
  {
    var typed := ByType(catalog, analysis);
    if IsSet(analysis.productType) {
      FilterIsSubsequence(catalog, p => MatchesType(p, analysis.productType.value));
    } else {
      PrefixIsSubsequence(catalog, |catalog|);
      assert catalog[..|catalog|] == catalog;
    }
    if analysis.priceRange.Some? {
      FilterIsSubsequence(typed, p => MatchesPrice(p, analysis.priceRange.value));
      SubsequenceTransitive(Exact(catalog, analysis), typed, catalog);
    }
  }

  // ---------------------------------------------------------------------
  // The image search

  /** The part of the vision model's answer the filter reads. */
  datatype ImageAnalysis = ImageAnalysis(productType: string, brand: string)

  /** Name or category contains the type, or the description contains the
      brand, everything lower-cased. */
  predicate LooksSimilar(p: Product, a: ImageAnalysis) {
    Contains(Lower(p.name), Lower(a.productType))
    || FieldIncludes(p.category, Lower(a.productType))
    || FieldIncludes(p.description, Lower(a.brand))
  }

  function SimilarHits(catalog: seq<Product>, a: ImageAnalysis): seq<Product> {
    Filter(catalog, p => LooksSimilar(p, a))
  }

  /** filter, then slice(0, 10), then a similarity of 0.8 on each. */
  function SimilarProducts(a: ImageAnalysis, catalog: seq<Product>): (r: seq<Scored>)
    ensures |r| <= Limit
    ensures forall i :: 0 <= i < |r| ==> r[i].similarity == ExactScore && LooksSimilar(r[i].product, a)
    ensures IsSubsequence(Unscored(r), catalog)
  {
    var hits := SimilarHits(catalog, a);
    FilterIsSubsequence(catalog, p => LooksSimilar(p, a));
    PrefixIsSubsequence(hits, Min(Limit, |hits|));
    SubsequenceTransitive(hits[..Min(Limit, |hits|)], hits, catalog);
    WithScore(hits[..Min(Limit, |hits|)], ExactScore)
  }
}
