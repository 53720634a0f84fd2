/** processNaturalLanguageQuery without its HTTP plumbing: the missing-query
    check, the analysis, the tiered search and the ten products shown. */
module NaturalQuery {
  import opened Text
  import opened Seqs
  import opened QueryAnalyzer
  import opened CatalogMatcher
  import opened MatcherProperties

  const MissingQuery: string := "Thiếu câu hỏi"

  /** What the reply says when the language model gives no text. */
  const Apology: string := "Xin lỗi, tôi không thể trả lời ngay. Vui lòng thử lại sau!"

  /** How many products a reply shows. */
  const Shown: nat := 10

  /** The JSON body of the reply: the 400 answer, or the successful one. */
  datatype Reply =
    | BadRequest(message: string)
    | Answer(response: string, products: seq<Scored>, analysis: Analysis)

  /** Taking the first n scored entries takes the first n products. */
  lemma UnscoredPrefix(r: seq<Scored>, n: nat)
    requires n <= |r|
    ensures Unscored(r[..n]) == Unscored(r)[..n]
  {
  }

  /** Scoring commutes with taking a prefix. */
  lemma WithScorePrefix(products: seq<Product>, score: int, n: nat)
    requires n <= |products|
    ensures WithScore(products, score)[..n] == WithScore(products[..n], score)
  {
  }

  /** The query is read from the request body (None when absent), and the
      language model's text is a parameter (None when the call failed). */
  function ProcessNaturalLanguageQuery(query: Option<string>, catalog: seq<Product>, generated: Option<string>): (r: Reply)
    ensures r.BadRequest? <==> !IsSet(query)
    ensures r.BadRequest? ==> r.message == MissingQuery
    ensures r.Answer? ==> r.response == (if generated.Some? then generated.value else Apology)
    ensures r.Answer? ==> |r.products| <= Shown && (r.products == [] <==> catalog == [])
    ensures r.Answer? ==> IsSubsequence(Unscored(r.products), catalog)
    ensures r.Answer? ==> forall i :: 0 <= i < |r.products| ==> r.products[i].similarity == r.products[0].similarity
    ensures r.Answer? ==> r.analysis == Analyze(query.value)
    ensures r.Answer? ==> var all := SearchProductsByCriteria(Analyze(query.value), catalog);
      r.products == all[..Min(Shown, |all|)]
  {
    if !IsSet(query) then BadRequest(MissingQuery)
    else
      var analysis := Analyze(query.value);
      var products := SearchProductsByCriteria(analysis, catalog);
      var shown := products[..Min(Shown, |products|)];
      UnscoredPrefix(products, Min(Shown, |products|));
      PrefixIsSubsequence(Unscored(products), Min(Shown, |products|));
      SubsequenceTransitive(Unscored(shown), Unscored(products), catalog);
      Answer(if generated.Some? then generated.value else Apology, shown, analysis)
  }

  /** A greeting shows the first ten products of the catalog at 0.8. */
  lemma GreetingShowsFirstTen(q: string, catalog: seq<Product>, generated: Option<string>)
    requires q == "xin chào" && catalog != []
    ensures ProcessNaturalLanguageQuery(Some(q), catalog, generated).products
      == WithScore(catalog[..Min(Shown, |catalog|)], ExactScore)
  {
    GreetingReturnsCatalog(q, catalog);
    WithScorePrefix(catalog, ExactScore, Min(Shown, |catalog|));
  }
}
