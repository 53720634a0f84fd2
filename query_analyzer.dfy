/** analyzeQuery of the chat-bot controller: free text to a criteria record.
    The three regular expressions of the controller are written out as scanners:
    an attempt at one position (alternatives tried in declaration order) and a
    leftmost search over the positions, which is what String.prototype.match
    does with a non-global pattern. */
module QueryAnalyzer {
  import opened Text

  /** A row of a keyword table: a name and the keywords that select it. */
  datatype Entry = Entry(name: string, keywords: seq<string>)

  /** The product-type lexicon, in declaration order (which is the priority). */
  const ProductTypes: seq<Entry> := [
    Entry("điện thoại", ["điện thoại", "smartphone", "phone", "mobile"]),
    Entry("laptop", ["laptop", "máy tính", "computer"]),
    Entry("tablet", ["tablet", "máy tính bảng"]),
    Entry("tai nghe", ["tai nghe", "headphone", "earphone"]),
    Entry("loa", ["loa", "speaker"]),
    Entry("đồng hồ", ["đồng hồ", "watch", "smartwatch"])
  ]

  /** The specification keyword groups. */
  const SpecGroups: seq<Entry> := [
    Entry("ram", ["ram", "memory"]),
    Entry("dung lượng", ["dung lượng", "storage", "gb", "tb"]),
    Entry("màn hình", ["màn hình", "screen", "inch", "kích thước"]),
    Entry("camera", ["camera", "máy ảnh", "mp"]),
    Entry("pin", ["pin", "battery", "mah"])
  ]

  /** Alternatives of the first group of the price pattern. */
  const PriceOperators: seq<string> := ["dưới", "trên", "khoảng", "từ", "đến"]

  /** Alternatives of the last group of the price pattern. */
  const PriceUnits: seq<string> := ["triệu", "nghìn", "k", "m"]

  /** operator is the text the pattern matched, with the user's casing. */
  datatype PriceRange = PriceRange(operator: string, amount: int)

  datatype Analysis = Analysis(
    productType: Option<string>,
    specifications: map<string, string>,
    priceRange: Option<PriceRange>,
    brand: Option<string>,
    intent: string)

  /** The record analyzeQuery starts from. */
  const Initial: Analysis := Analysis(None, map[], None, None, "search")

  // ---------------------------------------------------------------------
  // Product type

  /** Whether row k of the lexicon hits the lower-cased query. */
  predicate TypeHit(lowerQuery: string, table: seq<Entry>, k: nat)
    requires k < |table|
  {
    ContainsAny(lowerQuery, table[k].keywords)
  }

  /** Index of the first row of table at or after from that hits, |table| if none. */
  function TypeIndex(lowerQuery: string, table: seq<Entry>, from: nat): (k: nat)
    requires from <= |table|
    ensures from <= k <= |table|
    ensures k < |table| ==> TypeHit(lowerQuery, table, k)
    ensures forall j :: from <= j < k ==> !TypeHit(lowerQuery, table, j)
    decreases |table| - from
  {
    if from == |table| || TypeHit(lowerQuery, table, from) then from else TypeIndex(lowerQuery, table, from + 1)
  }

  /** Result of the loop over a lexicon: the name of the first row that hits. */
  function DetectType(lowerQuery: string, table: seq<Entry>): Option<string> {
    var k := TypeIndex(lowerQuery, table, 0);
    if k < |table| then Some(table[k].name) else None
  }

  // ---------------------------------------------------------------------
  // Specifications: /(kw0|kw1|...)\s*(\d+)/i

  /** What \s*(\d+) captures from position j: the digit run after the
      whitespace run, empty when there is no digit there. */
  function NumberAfter(q: string, j: nat): (d: string)
    requires j <= |q|
    ensures AllDigits(d)
  {
    var e := j + SpaceRun(q, j);
    DigitRunIsMaximal(q, e);
    q[e..e + DigitRun(q, e)]
  }

  /** The alternative kw of the specification pattern completes at position i. */
  predicate KeywordNumberAt(q: string, i: nat, kw: string) {
    StartsAtIgnoringCase(q, i, kw) && NumberAfter(q, i + |kw|) != []
  }

  /** Index of the first alternative (at or after from) that completes at
      position i, |kws| if none does. */
  function KeywordIndex(q: string, i: nat, kws: seq<string>, from: nat): (k: nat)
    requires from <= |kws|
    ensures from <= k <= |kws|
    ensures k < |kws| ==> KeywordNumberAt(q, i, kws[k])
    ensures forall j {:trigger KeywordNumberAt(q, i, kws[j])} :: from <= j < k ==> !KeywordNumberAt(q, i, kws[j])
    decreases |kws| - from
  {
    if from == |kws| || KeywordNumberAt(q, i, kws[from]) then from else KeywordIndex(q, i, kws, from + 1)
  }

  /** One attempt of the specification pattern at position i, and its capture. */
  function SpecMatchAt(q: string, i: nat, kws: seq<string>): Option<string> {
    var k := KeywordIndex(q, i, kws, 0);
    if k < |kws| then Some(NumberAfter(q, i + |kws[k]|)) else None
  }

  /** The leftmost position at or after from where the specification pattern
      matches, |q| + 1 if there is none. */
  function SpecPosition(q: string, kws: seq<string>, from: nat): (i: nat)
    requires from <= |q| + 1
    ensures from <= i <= |q| + 1
    ensures i <= |q| ==> SpecMatchAt(q, i, kws).Some?
    ensures forall j :: from <= j < i ==> SpecMatchAt(q, j, kws).None?
    decreases |q| + 1 - from
  {
    if from == |q| + 1 || SpecMatchAt(q, from, kws).Some? then from else SpecPosition(q, kws, from + 1)
  }

  /** query.match of the specification pattern: its second group. */
  function SpecSearch(q: string, kws: seq<string>): Option<string> {
    var i := SpecPosition(q, kws, 0);
    if i <= |q| then SpecMatchAt(q, i, kws) else None
  }

  /** analysis.specifications after the loop has visited the rows of groups. */
  function Specifications(q: string, groups: seq<Entry>): (m: map<string, string>)
    ensures forall name :: name in m ==> exists k :: 0 <= k < |groups| && groups[k].name == name
  {
    if groups == [] then map[]
    else
      var m := Specifications(q, groups[..|groups| - 1]);
      var g := groups[|groups| - 1];
      match SpecSearch(q, g.keywords)
      case Some(d) => m[g.name := d]
      case None => m
  }

  predicate DistinctNames(groups: seq<Entry>) {
    forall j, k :: 0 <= j < k < |groups| ==> groups[j].name != groups[k].name
  }

  // ---------------------------------------------------------------------
  // Price: /(dưới|trên|khoảng|từ|đến)\s*(\d+)\s*(triệu|nghìn|k|m)/i

  /** Index of the first unit (at or after from) that occurs at position k,
      ignoring case; |PriceUnits| if none does. */
  function UnitIndex(q: string, k: nat, units: seq<string>, from: nat): (u: nat)
    requires from <= |units|
    ensures from <= u <= |units|
    ensures u < |units| ==> StartsAtIgnoringCase(q, k, units[u])
    ensures forall v {:trigger StartsAtIgnoringCase(q, k, units[v])} :: from <= v < u ==> !StartsAtIgnoringCase(q, k, units[v])
    decreases |units| - from
  {
    if from == |units| || StartsAtIgnoringCase(q, k, units[from]) then from else UnitIndex(q, k, units, from + 1)
  }

  /** Captures of the second and third groups of the price pattern. */
  datatype Amount = Amount(digits: string, unit: string)

  /** What \s*(\d+)\s*(triệu|nghìn|k|m) matches from position j, if anything. */
  function AmountAfter(q: string, j: nat, units: seq<string>): (r: Option<Amount>)
    requires j <= |q|
    ensures r.Some? ==> r.value.digits != [] && AllDigits(r.value.digits)
  {
    var e := j + SpaceRun(q, j);
    var n := DigitRun(q, e);
    var k := e + n + SpaceRun(q, e + n);
    var u := UnitIndex(q, k, units, 0);
    DigitRunIsMaximal(q, e);
    if n == 0 || u == |units| then None
    else Some(Amount(q[e..e + n], q[k..k + |units[u]|]))
  }

  /** The alternative op of the price pattern completes at position i. */
  predicate OperatorAmountAt(q: string, i: nat, op: string, units: seq<string>) {
    StartsAtIgnoringCase(q, i, op) && AmountAfter(q, i + |op|, units).Some?
  }

  /** Index of the first operator of ops (at or after from) with which the
      price pattern completes at position i; |ops| if none. */
  function OperatorIndex(q: string, i: nat, ops: seq<string>, units: seq<string>, from: nat): (k: nat)
    requires from <= |ops|
    ensures from <= k <= |ops|
    ensures k < |ops| ==> OperatorAmountAt(q, i, ops[k], units)
    ensures forall j {:trigger OperatorAmountAt(q, i, ops[j], units)} :: from <= j < k ==> !OperatorAmountAt(q, i, ops[j], units)
    decreases |ops| - from
  {
    if from == |ops| || OperatorAmountAt(q, i, ops[from], units) then from
    else OperatorIndex(q, i, ops, units, from + 1)
  }

  /** The three captures of a match of the price pattern. */
  datatype PriceMatch = PriceMatch(operator: string, digits: string, unit: string)

  /** One attempt of the price pattern (operators ops, units units) at position i. */
  function PriceMatchAt(q: string, i: nat, ops: seq<string>, units: seq<string>): (r: Option<PriceMatch>)
    ensures r.Some? ==> r.value.digits != [] && AllDigits(r.value.digits)
  {
    var k := OperatorIndex(q, i, ops, units, 0);
    if k == |ops| then None
    else
      var a := AmountAfter(q, i + |ops[k]|, units).value;
      Some(PriceMatch(q[i..i + |ops[k]|], a.digits, a.unit))
  }

  /** The leftmost position at or after from where the price pattern
      matches, |q| + 1 if there is none. */
  function PricePosition(q: string, ops: seq<string>, units: seq<string>, from: nat): (i: nat)
    requires from <= |q| + 1
    ensures from <= i <= |q| + 1
    ensures i <= |q| ==> PriceMatchAt(q, i, ops, units).Some?
    ensures forall j :: from <= j < i ==> PriceMatchAt(q, j, ops, units).None?
    decreases |q| + 1 - from
  {
    if from == |q| + 1 || PriceMatchAt(q, from, ops, units).Some? then from
    else PricePosition(q, ops, units, from + 1)
  }

  /** query.match of the price pattern of the controller. */
  function PriceSearch(q: string): (r: Option<PriceMatch>)
    ensures r.Some? ==> r.value.digits != [] && AllDigits(r.value.digits)
  {
    var i := PricePosition(q, PriceOperators, PriceUnits, 0);
    if i <= |q| then PriceMatchAt(q, i, PriceOperators, PriceUnits) else None
  }

  /** The unit table of the controller, applied to the lower-cased unit. */
  function Multiplier(unit: string): nat {
    if unit == "triệu" then 1000000
    else if unit == "nghìn" || unit == "k" then 1000
    else if unit == "m" then 1000000
    else 1
  }

  /** analysis.priceRange. */
  function ExtractPrice(q: string): Option<PriceRange> {
    match PriceSearch(q)
    case None => None
    case Some(m) => Some(PriceRange(m.operator, DigitsValue(m.digits) * Multiplier(Lower(m.unit))))
  }

  // ---------------------------------------------------------------------
  // The whole analysis

  /** The criteria record analyzeQuery returns for query. */
  function Analyze(query: string): (a: Analysis)
    ensures a.brand == None && a.intent == "search"
  {
    Analysis(DetectType(Lower(query), ProductTypes), Specifications(query, SpecGroups), ExtractPrice(query), None, "search")
  }

  /** analyzeQuery: the record starts from its defaults and the three steps
      of the controller fill in its fields one after the other. */
  method AnalyzeQuery(query: string) returns (analysis: Analysis)
    ensures analysis == Analyze(query)
  {
    analysis := Initial;
    var lowerQuery := Lower(query);
    var productType := FindProductType(lowerQuery, ProductTypes);
    analysis := analysis.(productType := productType);
    var specifications := FindSpecifications(query, SpecGroups);
    analysis := analysis.(specifications := specifications);
    var priceRange := FindPriceRange(query);
    analysis := analysis.(priceRange := priceRange);
  }

  /** The loop over the lexicon, leaving at the first row that hits. */
  method FindProductType(lowerQuery: string, table: seq<Entry>) returns (productType: Option<string>)
    ensures productType == DetectType(lowerQuery, table)
  {
    productType := None;
    var t := 0;
    while t < |table|
      invariant t <= |table|
      invariant TypeIndex(lowerQuery, table, t) == TypeIndex(lowerQuery, table, 0)
    {
      if ContainsAny(lowerQuery, table[t].keywords) {
        productType := Some(table[t].name);
        break;
      }
      t := t + 1;
    }
  }

  /** The loop over the specification groups, storing each first capture. */
  method FindSpecifications(query: string, groups: seq<Entry>) returns (specifications: map<string, string>)
    ensures specifications == Specifications(query, groups)
  {
    specifications := map[];
    var s := 0;
    while s < |groups|
      invariant s <= |groups|
      invariant specifications == Specifications(query, groups[..s])
    {
      var spec := groups[s];
      var found := SpecSearch(query, spec.keywords);
      if found.Some? {
        specifications := specifications[spec.name := found.value];
      }
      assert groups[..s + 1][..s] == groups[..s];
      s := s + 1;
    }
    assert groups[..s] == groups;
  }

  /** The price step: parseInt of the digits, scaled by the lower-cased unit. */
  method FindPriceRange(query: string) returns (priceRange: Option<PriceRange>)
    ensures priceRange == ExtractPrice(query)
  {
    priceRange := None;
    var priceMatch := PriceSearch(query);
    if priceMatch.Some? {
      var amount := DigitsValue(priceMatch.value.digits);
      var unit := Lower(priceMatch.value.unit);
      ghost var n := amount;
      if unit == "triệu" {
        amount := amount * 1000000;
        assert Multiplier(unit) == 1000000;
      } else if unit == "nghìn" || unit == "k" {
        amount := amount * 1000;
        assert Multiplier(unit) == 1000;
      } else if unit == "m" {
        amount := amount * 1000000;
        assert Multiplier(unit) == 1000000;
      } else {
        assert Multiplier(unit) == 1;
      }
      assert amount == n * Multiplier(unit);
      priceRange := Some(PriceRange(priceMatch.value.operator, amount));
    }
  }
}
