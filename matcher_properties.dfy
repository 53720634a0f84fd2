/** What the tiered search promises: which tier answers, what each tier's
    list is, and the consequences of the price test's exact-string switch
    and of the price fallback to 0. */
module MatcherProperties {
  import opened Text
  import opened Seqs
  import opened QueryAnalyzer
  import opened AnalyzerProperties
  import opened CatalogMatcher

  /** The single criterion tier 1 applies: every filter that the analysis
      switches on. */
  predicate PassesCriteria(p: Product, a: Analysis) {
    (IsSet(a.productType) ==> MatchesType(p, a.productType.value))
    && (a.priceRange.Some? ==> MatchesPrice(p, a.priceRange.value))
  }

  /** Filtering by type and then by price is one filter by both: the
      catalog's products that pass, in catalog order. */
  lemma ExactIsOneFilter(catalog: seq<Product>, a: Analysis)
    ensures Exact(catalog, a) == Filter(catalog, p => PassesCriteria(p, a))
  {
    var both := p => PassesCriteria(p, a);
    if IsSet(a.productType) {
      var t := p => MatchesType(p, a.productType.value);
      if a.priceRange.Some? {
        FilterFilter(catalog, t, p => MatchesPrice(p, a.priceRange.value), both);
      } else {
        FilterCongruent(catalog, t, both);
      }
    } else if a.priceRange.Some? {
      FilterCongruent(catalog, p => MatchesPrice(p, a.priceRange.value), both);
    } else {
      FilterAll(catalog, both);
    }
  }

  /** Tier 1 answers with score 0.8 whenever some product passes its filters. */
  lemma TierOne(catalog: seq<Product>, a: Analysis)
    requires Exact(catalog, a) != []
    ensures SearchProductsByCriteria(a, catalog) == WithScore(Filter(catalog, p => PassesCriteria(p, a)), ExactScore)
  {
    ExactIsOneFilter(catalog, a);
  }

  /** Otherwise tier 2 answers with 0.7: the keyword matches of the whole
      catalog, including products the price filter rejected. */
  lemma TierTwo(catalog: seq<Product>, a: Analysis, i: int)
    requires Exact(catalog, a) == [] && KeywordMatches(catalog, a) != []
    requires 0 <= i < |catalog| && MatchesKeyword(catalog[i], SearchTerm(a))
    ensures SearchProductsByCriteria(a, catalog) == WithScore(KeywordMatches(catalog, a), KeywordScore)
    ensures catalog[i] in Unscored(SearchProductsByCriteria(a, catalog))
  {
    FilterKeeps(catalog, p => MatchesKeyword(p, SearchTerm(a)), i);
  }

  /** A detected type is lower case, so a product that passes tier 1's type
      filter also matches tier 2's keyword: the last tier answers only when
      no product has the type at all. */
  lemma DefaultOnlyWithoutTypeMatch(catalog: seq<Product>, a: Analysis)
    requires IsSet(a.productType) && Lower(a.productType.value) == a.productType.value
    requires KeywordMatches(catalog, a) == []
    ensures ByType(catalog, a) == []
  {
    var types := p => MatchesType(p, a.productType.value);
    var keyword := p => MatchesKeyword(p, SearchTerm(a));
    FilterEmpty(catalog, keyword);
    FilterEmpty(catalog, types);
    forall i | 0 <= i < |catalog| ensures !types(catalog[i]) {
      assert !keyword(catalog[i]);
    }
  }

  /** When neither filter finds anything, the first ten catalog entries come
      back with score 0.5. */
  lemma TierThree(catalog: seq<Product>, a: Analysis)
    requires Exact(catalog, a) == [] && KeywordMatches(catalog, a) == []
    ensures SearchProductsByCriteria(a, catalog) == WithScore(catalog[..Min(Limit, |catalog|)], DefaultScore)
    ensures |SearchProductsByCriteria(a, catalog)| == Min(Limit, |catalog|)
  {
  }

  /** The score of an answer tells which tier produced it. */
  lemma ScoreIdentifiesTier(catalog: seq<Product>, a: Analysis)
    requires catalog != []
    ensures var r := SearchProductsByCriteria(a, catalog);
      (r[0].similarity == ExactScore <==> Exact(catalog, a) != [])
      && (r[0].similarity == KeywordScore <==> Exact(catalog, a) == [] && KeywordMatches(catalog, a) != [])
      && (r[0].similarity == DefaultScore <==> Exact(catalog, a) == [] && KeywordMatches(catalog, a) == [])
  {
  }

  /** With no type and no price range, tier 1 keeps every product. */
  lemma UnconstrainedIsWholeCatalog(catalog: seq<Product>, a: Analysis)
    requires !IsSet(a.productType) && a.priceRange.None? && catalog != []
    ensures SearchProductsByCriteria(a, catalog) == WithScore(catalog, ExactScore)
  {
    ExactIsOneFilter(catalog, a);
    FilterAll(catalog, p => PassesCriteria(p, a));
  }

  /** A greeting finds no criteria, so the whole catalog comes back at 0.8. */
  lemma GreetingReturnsCatalog(q: string, catalog: seq<Product>)
    requires q == "xin chào" && catalog != []
    ensures SearchProductsByCriteria(Analyze(q), catalog) == WithScore(catalog, ExactScore)
  {
    GreetingIsEmpty(q);
    UnconstrainedIsWholeCatalog(catalog, Analyze(q));
  }

  // ---------------------------------------------------------------------
  // The price test

  /** The effective price is the first of prices['250'] and price that is
      present and not zero, and 0 when there is neither. */
  lemma EffectivePriceChoice(p: Product)
    ensures EffectivePrice(p) != 0 <==>
      ("250" in p.prices && p.prices["250"] != 0) || (p.price.Some? && p.price.value != 0)
    ensures "250" in p.prices && p.prices["250"] != 0 ==> EffectivePrice(p) == p.prices["250"]
    ensures ("250" !in p.prices || p.prices["250"] == 0) && p.price.Some? && p.price.value != 0 ==>
      EffectivePrice(p) == p.price.value
  {
  }

  /** A product without a price counts as costing 0: it passes every "dưới"
      range with a positive amount and fails every "trên" range. */
  lemma MissingPriceQuirk(p: Product, range: PriceRange)
    requires "250" !in p.prices && p.price.None?
    ensures range.operator == "dưới" && range.amount > 0 ==> MatchesPrice(p, range)
    ensures range.operator == "trên" && range.amount >= 0 ==> !MatchesPrice(p, range)
  {
  }

  /** "khoảng" is strict: a price exactly 20% away from the amount fails,
      one unit closer passes. */
  lemma AboutIsStrict(p: Product, q: Product)
    requires EffectivePrice(p) == 8000000 && EffectivePrice(q) == 8000001
    ensures !MatchesPrice(p, PriceRange("khoảng", 10000000))
    ensures MatchesPrice(q, PriceRange("khoảng", 10000000))
  {
  }

  /** An operator the switch does not name ("từ", "đến", or a capitalised
      "Dưới") filters nothing out. */
  lemma UnknownOperatorKeepsAll(products: seq<Product>, range: PriceRange)
    requires range.operator != "dưới" && range.operator != "trên" && range.operator != "khoảng"
    ensures Filter(products, p => MatchesPrice(p, range)) == products
  {
    FilterAll(products, p => MatchesPrice(p, range));
  }

  /** A query starting "Dưới 5 triệu" is recognised as a price, but its
      operator keeps its capital and the price filter then keeps every product. */
  lemma CapitalisedOperatorFiltersNothing(q: string, products: seq<Product>)
    requires 12 <= |q| && q[..12] == "Dưới 5 triệu"
    ensures Analyze(q).priceRange == Some(PriceRange("Dưới", 5000000))
    ensures ByPrice(products, Analyze(q)) == products
  {
    CapitalisedOperatorKept(q);
    UnknownOperatorKeepsAll(products, PriceRange("Dưới", 5000000));
  }

  /** A query starting "dưới 5 triệu" keeps exactly the products whose price
      is below five million. */
  lemma UnderFiveMillionFilter(q: string, products: seq<Product>)
    requires 12 <= |q| && q[..12] == "dưới 5 triệu"
    ensures ByPrice(products, Analyze(q)) == Filter(products, p => EffectivePrice(p) < 5000000)
  {
    UnderFiveMillion(q);
    FilterCongruent(products, p => MatchesPrice(p, PriceRange("dưới", 5000000)), p => EffectivePrice(p) < 5000000);
  }

  // ---------------------------------------------------------------------
  // The image search

  /** The answer is the first ten matching products, in catalog order. */
  lemma SimilarIsFirstTen(a: ImageAnalysis, catalog: seq<Product>)
    ensures Unscored(SimilarProducts(a, catalog)) == SimilarHits(catalog, a)[..Min(Limit, |SimilarHits(catalog, a)|)]
    ensures |SimilarHits(catalog, a)| <= Limit ==> Unscored(SimilarProducts(a, catalog)) == SimilarHits(catalog, a)
  {
  }

  /** With ten matches or fewer, every matching catalog product is returned. */
  lemma SimilarCompleteWhenFew(a: ImageAnalysis, catalog: seq<Product>, i: int)
    requires |SimilarHits(catalog, a)| <= Limit
    requires 0 <= i < |catalog| && LooksSimilar(catalog[i], a)
    ensures catalog[i] in Unscored(SimilarProducts(a, catalog))
  {
    SimilarIsFirstTen(a, catalog);
    FilterKeeps(catalog, p => LooksSimilar(p, a), i);
  }

  /** The answer is empty exactly when no product looks similar. */
  lemma SimilarEmpty(a: ImageAnalysis, catalog: seq<Product>)
    ensures SimilarProducts(a, catalog) == [] <==> forall i :: 0 <= i < |catalog| ==> !LooksSimilar(catalog[i], a)
  {
    FilterEmpty(catalog, p => LooksSimilar(p, a));
    SimilarIsFirstTen(a, catalog);
    assert |SimilarProducts(a, catalog)| == Min(Limit, |SimilarHits(catalog, a)|);
  }

  /** An empty brand is contained in every description, so each product
      that has a description looks similar. */
  lemma EmptyBrandMatchesDescribed(p: Product, a: ImageAnalysis)
    requires a.brand == "" && p.description.Some?
    ensures LooksSimilar(p, a)
  {
    assert StartsAt(Lower(p.description.value), 0, Lower(a.brand));
  }
}
