/** What analyzeQuery promises, stated about the functions that specify it. */
module AnalyzerProperties {
  import opened Text
  import opened QueryAnalyzer

  // ---------------------------------------------------------------------
  // Product type

  lemma ProductTypeNamesDistinct()
    ensures DistinctNames(ProductTypes)
  {
  }

  /** The detected type is the name of row k exactly when row k is the first
      row of the lexicon (in declaration order) whose keywords hit. */
  lemma DetectTypeIsFirstHit(lowerQuery: string, k: nat)
    requires k < |ProductTypes|
    ensures DetectType(lowerQuery, ProductTypes) == Some(ProductTypes[k].name)
        <==> (TypeHit(lowerQuery, ProductTypes, k) && forall j :: 0 <= j < k ==> !TypeHit(lowerQuery, ProductTypes, j))
  {
    ProductTypeNamesDistinct();
    var first := TypeIndex(lowerQuery, ProductTypes, 0);
    if DetectType(lowerQuery, ProductTypes) == Some(ProductTypes[k].name) {
      assert first < |ProductTypes| && ProductTypes[first].name == ProductTypes[k].name;
    }
  }

  /** No type is detected exactly when no keyword of any row is a substring;
      otherwise the type is one of the lexicon's names. */
  lemma DetectTypeNone(lowerQuery: string)
    ensures DetectType(lowerQuery, ProductTypes).None?
        <==> forall k :: 0 <= k < |ProductTypes| ==> !ContainsAny(lowerQuery, ProductTypes[k].keywords)
    ensures DetectType(lowerQuery, ProductTypes).Some? ==>
        DetectType(lowerQuery, ProductTypes).value in ["điện thoại", "laptop", "tablet", "tai nghe", "loa", "đồng hồ"]
  {
    var first := TypeIndex(lowerQuery, ProductTypes, 0);
    if first < |ProductTypes| {
      assert ProductTypes[first].name in ["điện thoại", "laptop", "tablet", "tai nghe", "loa", "đồng hồ"];
    } else {
      forall k | 0 <= k < |ProductTypes| ensures !ContainsAny(lowerQuery, ProductTypes[k].keywords) {
        assert !TypeHit(lowerQuery, ProductTypes, k);
      }
    }
  }

  /** No keyword of the phone row occurs in "máy tính bảng". */
  lemma TabletPhraseMissesPhoneRow()
    ensures !TypeHit("máy tính bảng", ProductTypes, 0)
  {
    var q := "máy tính bảng";
    assert 'p' !in q && 'o' !in q;
    Absent(q, "điện thoại", 'đ');
    Absent(q, "smartphone", 's');
    Absent(q, "phone", 'p');
    Absent(q, "mobile", 'o');
  }

  /** "máy tính bảng" contains "máy tính", so the laptop row wins over the
      tablet row that names the whole phrase. */
  lemma TabletPhraseIsLaptop()
    ensures DetectType(Lower("máy tính bảng"), ProductTypes) == Some("laptop")
  {
    var q := "máy tính bảng";
    TabletPhraseMissesPhoneRow();
    assert StartsAt(q, 0, "máy tính");
    assert TypeHit(q, ProductTypes, 1);
    LowerOfLower(q);
  }

  /** "headphone" contains "phone", so it is read as a phone. */
  lemma HeadphoneIsPhone()
    ensures DetectType(Lower("headphone"), ProductTypes) == Some("điện thoại")
  {
    var q := "headphone";
    LowerOfLower(q);
    assert StartsAt(q, 4, "phone");
    assert TypeHit(q, ProductTypes, 0);
  }

  // ---------------------------------------------------------------------
  // Specifications

  /** One attempt at position i fails exactly when no keyword of the group
      is followed by a number there; otherwise its capture is the number after
      the first keyword of the group, in declaration order, that is. */
  lemma SpecMatchIsFirstAlternative(q: string, i: nat, kws: seq<string>)
    ensures SpecMatchAt(q, i, kws).None? <==> forall k :: 0 <= k < |kws| ==> !KeywordNumberAt(q, i, kws[k])
    ensures SpecMatchAt(q, i, kws).Some? ==>
      exists k :: 0 <= k < |kws| && KeywordNumberAt(q, i, kws[k])
        && SpecMatchAt(q, i, kws).value == NumberAfter(q, i + |kws[k]|)
        && forall l :: 0 <= l < k ==> !KeywordNumberAt(q, i, kws[l])
  {
    var k := KeywordIndex(q, i, kws, 0);
    if k < |kws| {
      assert KeywordNumberAt(q, i, kws[k]);
    }
  }

  /** The specification pattern matches nowhere exactly when no attempt at
      any position succeeds; otherwise its capture is that of the attempt at
      the leftmost position where one does. */
  lemma SpecSearchIsLeftmost(q: string, kws: seq<string>)
    ensures SpecSearch(q, kws).None? <==> forall i :: 0 <= i <= |q| ==> SpecMatchAt(q, i, kws).None?
    ensures SpecSearch(q, kws).Some? ==>
      exists i :: 0 <= i <= |q| && SpecSearch(q, kws) == SpecMatchAt(q, i, kws)
        && forall j :: 0 <= j < i ==> SpecMatchAt(q, j, kws).None?
  {
    var i := SpecPosition(q, kws, 0);
    if i <= |q| {
      assert SpecSearch(q, kws) == SpecMatchAt(q, i, kws);
    }
  }

  /** What \s*(\d+) captures from j sits right after the whitespace run
      and is the whole digit run there: the next character is not a digit. */
  lemma NumberAfterIsDigitRun(q: string, j: nat)
    requires j <= |q|
    ensures var e := j + SpaceRun(q, j); var d := NumberAfter(q, j);
      (forall k :: j <= k < e ==> IsSpace(q[k])) && StartsAt(q, e, d)
      && (e + |d| < |q| ==> !IsDigit(q[e + |d|]))
  {
    SpaceRunIsMaximal(q, j);
    DigitRunIsMaximal(q, j + SpaceRun(q, j));
  }

  /** d is what an attempt at i captures: the whole digit run that starts
      right after the first keyword that completes there and the whitespace
      after that keyword. */
  predicate CaptureAt(q: string, i: nat, kws: seq<string>, d: string) {
    var k := KeywordIndex(q, i, kws, 0);
    k < |kws| && StartsAtIgnoringCase(q, i, kws[k])
    && var j := i + |kws[k]|; var e := j + SpaceRun(q, j);
    j <= |q| && d != [] && AllDigits(d) && (forall c :: j <= c < e ==> IsSpace(q[c]))
    && StartsAt(q, e, d) && DigitRun(q, e) == |d| && (e + |d| < |q| ==> !IsDigit(q[e + |d|]))
  }

  /** The capture of one attempt of the specification pattern is the whole
      digit run after the first completing keyword and its whitespace. */
  lemma SpecMatchCapture(q: string, i: nat, kws: seq<string>)
    requires SpecMatchAt(q, i, kws).Some?
    ensures CaptureAt(q, i, kws, SpecMatchAt(q, i, kws).value)
  {
    var k := KeywordIndex(q, i, kws, 0);
    NumberAfterIsDigitRun(q, i + |kws[k]|);
  }

  /** The capture of the specification pattern is the one at the leftmost
      position where an attempt succeeds: the whole digit run after the first
      completing keyword there, and its whitespace. */
  lemma SpecCaptureIsDigitRun(q: string, kws: seq<string>)
    requires SpecSearch(q, kws).Some?
    ensures var i := SpecPosition(q, kws, 0);
      i <= |q| && (forall l :: 0 <= l < i ==> SpecMatchAt(q, l, kws).None?)
      && CaptureAt(q, i, kws, SpecSearch(q, kws).value)
  {
    var i := SpecPosition(q, kws, 0);
    assert SpecSearch(q, kws) == SpecMatchAt(q, i, kws);
    SpecMatchCapture(q, i, kws);
  }

  /** Every keyword of the group ends in a character that is not a digit. */
  predicate EndsWithoutDigit(kws: seq<string>) {
    forall k :: 0 <= k < |kws| ==> |kws[k]| > 0 && !IsDigit(kws[k][|kws[k]| - 1])
  }

  /** When no keyword ends in a digit, the capture is a digit run bounded on
      both sides: neither the character before it nor the one after it is a
      digit. */
  lemma SpecCaptureIsMaximalRun(q: string, kws: seq<string>)
    requires EndsWithoutDigit(kws) && SpecSearch(q, kws).Some?
    ensures exists e :: var d := SpecSearch(q, kws).value;
      StartsAt(q, e, d) && DigitRun(q, e) == |d| && (e > 0 ==> !IsDigit(q[e - 1]))
  {
    SpecCaptureIsDigitRun(q, kws);
    CaptureHasNoDigitBefore(q, SpecPosition(q, kws, 0), kws, SpecSearch(q, kws).value);
  }

  /** One successful attempt of the specification pattern, with keywords not
      ending in a digit, captures a run with no digit just before it. */
  lemma CaptureHasNoDigitBefore(q: string, i: nat, kws: seq<string>, d: string)
    requires EndsWithoutDigit(kws) && CaptureAt(q, i, kws, d)
    ensures exists e :: StartsAt(q, e, d) && DigitRun(q, e) == |d| && (e > 0 ==> !IsDigit(q[e - 1]))
  {
    var k := KeywordIndex(q, i, kws, 0);
    var j := i + |kws[k]|;
    var e := j + SpaceRun(q, j);
    NoDigitBeforeRun(q, i, kws[k], e);
    assert StartsAt(q, e, d) && DigitRun(q, e) == |d|;
  }

  /** After a keyword that does not end in a digit and spaces only, the
      preceding character is not a digit. */
  lemma NoDigitBeforeRun(q: string, i: nat, w: string, e: nat)
    requires StartsAtIgnoringCase(q, i, w) && |w| > 0 && !IsDigit(w[|w| - 1])
    requires i + |w| <= e <= |q| && forall c :: i + |w| <= c < e ==> IsSpace(q[c])
    ensures !IsDigit(q[e - 1])
  {
    if e == i + |w| {
      assert LowerChar(q[i + (|w| - 1)]) == LowerChar(w[|w| - 1]);
    } else {
      assert IsSpace(q[e - 1]);
    }
  }

  /** The keywords of the controller's specification groups all end in a letter. */
  lemma SpecKeywordsEndWithoutDigit(g: nat)
    requires g < |SpecGroups|
    ensures EndsWithoutDigit(SpecGroups[g].keywords)
  {
  }

  /** A stored specification value is a maximal digit run of the query:
      no digit right before it and none right after it. */
  lemma SpecValueIsMaximalRun(query: string, g: nat)
    requires g < |SpecGroups| && SpecGroups[g].name in Analyze(query).specifications
    ensures exists e :: var d := Analyze(query).specifications[SpecGroups[g].name];
      StartsAt(query, e, d) && DigitRun(query, e) == |d| && (e > 0 ==> !IsDigit(query[e - 1]))
  {
    SpecificationsOfQuery(query, g);
    SpecKeywordsEndWithoutDigit(g);
    SpecCaptureIsMaximalRun(query, SpecGroups[g].keywords);
  }

  /** The map for all groups is the map for all but the last one, with the
      last group's digits added when its pattern matches. */
  lemma SpecificationsStep(q: string, groups: seq<Entry>)
    requires groups != []
    ensures var g := groups[|groups| - 1];
      var m := Specifications(q, groups[..|groups| - 1]);
      var found := SpecSearch(q, g.keywords);
      Specifications(q, groups) == if found.Some? then m[g.name := found.value] else m
  {
  }

  /** Distinct names stay distinct in a prefix. */
  lemma DistinctPrefix(groups: seq<Entry>, n: nat)
    requires DistinctNames(groups) && n <= |groups|
    ensures DistinctNames(groups[..n])
  {
    var prefix := groups[..n];
    forall a, b | 0 <= a < b < n ensures prefix[a].name != prefix[b].name {
      assert prefix[a] == groups[a] && prefix[b] == groups[b];
    }
  }

  /** Reading one specification back out of the map the loop builds. */
  lemma {:induction false} SpecificationsLookup(q: string, groups: seq<Entry>, k: nat)
    requires DistinctNames(groups) && k < |groups|
    ensures groups[k].name in Specifications(q, groups) <==> SpecSearch(q, groups[k].keywords).Some?
    ensures groups[k].name in Specifications(q, groups) ==>
      Specifications(q, groups)[groups[k].name] == SpecSearch(q, groups[k].keywords).value
  {
    var n := |groups| - 1;
    if k < n {
      DistinctPrefix(groups, n);
      SpecificationsLookup(q, groups[..n], k);
      assert groups[n].name != groups[k].name;
      LookupSkipsLast(q, groups, k);
    } else {
      LookupLast(q, groups);
    }
  }

  /** The last group's step stores that group's capture, if any. */
  lemma LookupLast(q: string, groups: seq<Entry>)
    requires groups != [] && DistinctNames(groups)
    ensures var g := groups[|groups| - 1];
      (g.name in Specifications(q, groups) <==> SpecSearch(q, g.keywords).Some?)
      && (g.name in Specifications(q, groups) ==> Specifications(q, groups)[g.name] == SpecSearch(q, g.keywords).value)
  {
    var n := |groups| - 1;
    var prefix := groups[..n];
    SpecificationsStep(q, groups);
    if groups[n].name in Specifications(q, prefix) {
      assert false;
    }
  }

  /** The last group's step does not disturb the entry of an earlier group
      with another name. */
  lemma LookupSkipsLast(q: string, groups: seq<Entry>, k: nat)
    requires k < |groups| - 1 && groups[|groups| - 1].name != groups[k].name
    requires var m := Specifications(q, groups[..|groups| - 1]);
      (groups[k].name in m <==> SpecSearch(q, groups[k].keywords).Some?)
      && (groups[k].name in m ==> m[groups[k].name] == SpecSearch(q, groups[k].keywords).value)
    ensures groups[k].name in Specifications(q, groups) <==> SpecSearch(q, groups[k].keywords).Some?
    ensures groups[k].name in Specifications(q, groups) ==>
      Specifications(q, groups)[groups[k].name] == SpecSearch(q, groups[k].keywords).value
  {
    var n := |groups| - 1;
    SpecificationsStep(q, groups);
    OtherKeyUnchanged(Specifications(q, groups), Specifications(q, groups[..n]), groups[k].name, groups[n].name, SpecSearch(q, groups[n].keywords));
  }

  /** A step that sets key other, or nothing, leaves key as it was. */
  lemma OtherKeyUnchanged(after: map<string, string>, before: map<string, string>, key: string, other: string, found: Option<string>)
    requires after == (if found.Some? then before[other := found.value] else before) && key != other
    ensures key in after <==> key in before
    ensures key in after ==> after[key] == before[key]
  {
  }

  lemma SpecGroupNamesDistinct()
    ensures DistinctNames(SpecGroups)
  {
  }

  /** analysis.specifications has the key of a group exactly when that
      group's pattern matches, and then holds the digits it captured. */
  lemma SpecificationsOfQuery(query: string, k: nat)
    requires k < |SpecGroups|
    ensures SpecGroups[k].name in Analyze(query).specifications <==> SpecSearch(query, SpecGroups[k].keywords).Some?
    ensures SpecGroups[k].name in Analyze(query).specifications ==>
      Analyze(query).specifications[SpecGroups[k].name] == SpecSearch(query, SpecGroups[k].keywords).value
  {
    assert Analyze(query).specifications == Specifications(query, SpecGroups);
    SpecGroupNamesDistinct();
    SpecificationsLookup(query, SpecGroups, k);
  }

  /** "ram 8gb": the keyword ram, a space, and the digit run "8". */
  lemma RamEight()
    ensures SpecSearch("ram 8gb", SpecGroups[0].keywords) == Some("8")
  {
    var q := "ram 8gb";
    var kws := SpecGroups[0].keywords;
    assert kws[0] == "ram";
    assert StartsAtIgnoringCase(q, 0, "ram");
    assert SpaceRun(q, 3) == 1;
    assert DigitRun(q, 4) == 1;
    assert NumberAfter(q, 3) == q[4..5] == "8";
    assert KeywordNumberAt(q, 0, kws[0]);
    assert KeywordIndex(q, 0, kws, 0) == 0;
    assert SpecMatchAt(q, 0, kws) == Some("8");
    assert SpecPosition(q, kws, 0) == 0;
  }

  // ---------------------------------------------------------------------
  // Price

  /** Every word of the table is its own lower-case form. */
  predicate IsLowerTable(words: seq<string>) {
    forall k {:trigger Lower(words[k])} :: 0 <= k < |words| ==> Lower(words[k]) == words[k]
  }

  lemma UnitsAreLowerCase()
    ensures IsLowerTable(PriceUnits)
  {
    assert Lower("triệu") == "triệu";
    assert Lower("nghìn") == "nghìn";
    assert Lower("k") == "k";
    assert Lower("m") == "m";
  }

  lemma OperatorsAreLowerCase()
    ensures IsLowerTable(PriceOperators)
  {
    assert Lower("dưới") == "dưới";
    assert Lower("trên") == "trên";
    assert Lower("khoảng") == "khoảng";
    assert Lower("từ") == "từ";
    assert Lower("đến") == "đến";
  }

  /** Text that matches a word of a lower-case table, ignoring case,
      lower-cases to a word of that table. */
  lemma MatchedTextLowers(q: string, i: nat, words: seq<string>, k: nat)
    requires k < |words| && StartsAtIgnoringCase(q, i, words[k]) && IsLowerTable(words)
    ensures Lower(q[i..i + |words[k]|]) in words
  {
    var w := words[k];
    assert Lower(w) == w;
    assert forall c :: 0 <= c < |w| ==> LowerChar(w[c]) == w[c];
    assert Lower(q[i..i + |w|]) == w;
  }

  /** Where the captures of an amount come from: the unit is the text of
      the first unit word that occurs, ignoring case, after the digits. */
  lemma AmountParts(q: string, j: nat, units: seq<string>)
    requires j <= |q| && AmountAfter(q, j, units).Some?
    ensures var e := j + SpaceRun(q, j);
      var b := e + DigitRun(q, e) + SpaceRun(q, e + DigitRun(q, e));
      var u := UnitIndex(q, b, units, 0);
      u < |units| && StartsAtIgnoringCase(q, b, units[u])
      && AmountAfter(q, j, units).value.unit == q[b..b + |units[u]|]
  {
  }

  /** What \s*(\d+)\s*(unit) reads from j: the digits are the whole digit run
      after the whitespace run; there is no match exactly when that run is
      empty or no unit word follows it and its whitespace. */
  lemma AmountAfterIsDigitRun(q: string, j: nat, units: seq<string>)
    requires j <= |q|
    ensures var e := j + SpaceRun(q, j); var n := DigitRun(q, e);
      var b := e + n + SpaceRun(q, e + n);
      (AmountAfter(q, j, units).None? <==> n == 0 || UnitIndex(q, b, units, 0) == |units|)
      && (forall c :: j <= c < e ==> IsSpace(q[c]))
      && (AmountAfter(q, j, units).Some? ==>
            AmountAfter(q, j, units).value.digits == q[e..e + n] && (e + n < |q| ==> !IsDigit(q[e + n])))
  {
    SpaceRunIsMaximal(q, j);
    DigitRunIsMaximal(q, j + SpaceRun(q, j));
  }

  /** Where the captures of one attempt of the price pattern come from. */
  lemma PriceMatchParts(q: string, i: nat, ops: seq<string>, units: seq<string>)
    requires PriceMatchAt(q, i, ops, units).Some?
    ensures var k := OperatorIndex(q, i, ops, units, 0);
      k < |ops| && OperatorAmountAt(q, i, ops[k], units)
      && PriceMatchAt(q, i, ops, units).value.operator == q[i..i + |ops[k]|]
      && PriceMatchAt(q, i, ops, units).value.digits == AmountAfter(q, i + |ops[k]|, units).value.digits
      && PriceMatchAt(q, i, ops, units).value.unit == AmountAfter(q, i + |ops[k]|, units).value.unit
  {
  }

  lemma AmountUnitLowers(q: string, j: nat, units: seq<string>)
    requires j <= |q| && IsLowerTable(units) && AmountAfter(q, j, units).Some?
    ensures Lower(AmountAfter(q, j, units).value.unit) in units
  {
    var e := j + SpaceRun(q, j);
    var n := DigitRun(q, e);
    var b := e + n + SpaceRun(q, e + n);
    var u := UnitIndex(q, b, units, 0);
    assert u < |units|;
    assert AmountAfter(q, j, units).value.unit == q[b..b + |units[u]|];
    MatchedTextLowers(q, b, units, u);
  }

  lemma OperatorLowers(q: string, i: nat, ops: seq<string>, units: seq<string>)
    requires IsLowerTable(ops) && PriceMatchAt(q, i, ops, units).Some?
    ensures Lower(PriceMatchAt(q, i, ops, units).value.operator) in ops
  {
    var k := OperatorIndex(q, i, ops, units, 0);
    assert k < |ops| && OperatorAmountAt(q, i, ops[k], units);
    assert PriceMatchAt(q, i, ops, units).value.operator == q[i..i + |ops[k]|];
    MatchedTextLowers(q, i, ops, k);
  }

  lemma UnitLowers(q: string, i: nat, ops: seq<string>, units: seq<string>)
    requires IsLowerTable(units) && PriceMatchAt(q, i, ops, units).Some?
    ensures Lower(PriceMatchAt(q, i, ops, units).value.unit) in units
  {
    var k := OperatorIndex(q, i, ops, units, 0);
    assert k < |ops| && OperatorAmountAt(q, i, ops[k], units);
    var j := i + |ops[k]|;
    AmountUnitLowers(q, j, units);
    assert PriceMatchAt(q, i, ops, units).value.unit == AmountAfter(q, j, units).value.unit;
  }

  /** The unit table: triệu and m scale by a million, nghìn and k by a thousand. */
  lemma UnitScale(unit: string)
    requires unit in PriceUnits
    ensures Multiplier(unit) == if unit == "triệu" || unit == "m" then 1000000 else 1000
  {
  }

  /** Of a price match: the operator is the matched text with the user's
      casing, which lower-cases to one of the five operator words; the unit
      lower-cases to one of the four unit words; and the amount is the
      number times 1,000,000 for triệu or m and times 1,000 for nghìn or k. */
  lemma PriceAmountScaling(q: string)
    requires PriceSearch(q).Some?
    ensures var m := PriceSearch(q).value;
      Lower(m.operator) in PriceOperators && Lower(m.unit) in PriceUnits
      && ExtractPrice(q) == Some(PriceRange(m.operator,
           DigitsValue(m.digits) * (if Lower(m.unit) == "triệu" || Lower(m.unit) == "m" then 1000000 else 1000)))
  {
    var i := PricePosition(q, PriceOperators, PriceUnits, 0);
    OperatorsAreLowerCase();
    UnitsAreLowerCase();
    OperatorLowers(q, i, PriceOperators, PriceUnits);
    UnitLowers(q, i, PriceOperators, PriceUnits);
    UnitScale(Lower(PriceSearch(q).value.unit));
  }

  /** No operator of ops is followed by an amount at any position before i
      (up to the end of q). */
  predicate NoAmountBefore(q: string, i: nat, ops: seq<string>, units: seq<string>) {
    forall j, l :: 0 <= j < i && j <= |q| && 0 <= l < |ops| ==> !OperatorAmountAt(q, j, ops[l], units)
  }

  /** Only the leftmost match counts: there is no price exactly when no
      operator is followed by a number and a unit anywhere, and otherwise the
      operator is the text at the leftmost position where one is. */
  lemma PriceIsLeftmost(q: string)
    ensures ExtractPrice(q).None? <==> NoAmountBefore(q, |q| + 1, PriceOperators, PriceUnits)
    ensures ExtractPrice(q).Some? ==>
      exists i, k :: 0 <= i <= |q| && 0 <= k < |PriceOperators| && OperatorAmountAt(q, i, PriceOperators[k], PriceUnits)
        && ExtractPrice(q).value.operator == q[i..i + |PriceOperators[k]|]
        && NoAmountBefore(q, i, PriceOperators, PriceUnits)
  {
    ExtractPriceOperator(q);
    PriceSearchLeftmost(q);
  }

  /** The range extracted comes from query.match and keeps its operator. */
  lemma ExtractPriceOperator(q: string)
    ensures ExtractPrice(q).None? <==> PriceSearch(q).None?
    ensures ExtractPrice(q).Some? ==> ExtractPrice(q).value.operator == PriceSearch(q).value.operator
  {
  }

  /** query.match of the price pattern finds the leftmost operator followed
      by an amount. */
  lemma PriceSearchLeftmost(q: string)
    ensures PriceSearch(q).None? <==> NoAmountBefore(q, |q| + 1, PriceOperators, PriceUnits)
    ensures PriceSearch(q).Some? ==>
      exists i, k :: 0 <= i <= |q| && 0 <= k < |PriceOperators| && OperatorAmountAt(q, i, PriceOperators[k], PriceUnits)
        && PriceSearch(q).value.operator == q[i..i + |PriceOperators[k]|]
        && NoAmountBefore(q, i, PriceOperators, PriceUnits)
  {
    var i := PricePosition(q, PriceOperators, PriceUnits, 0);
    assert PriceSearch(q) == if i <= |q| then PriceMatchAt(q, i, PriceOperators, PriceUnits) else None;
    LeftmostPosition(q, PriceOperators, PriceUnits);
  }

  /** The attempts fail everywhere exactly when no operator is followed by an
      amount anywhere; otherwise the first successful attempt captures the
      leftmost such operator. */
  lemma LeftmostPosition(q: string, ops: seq<string>, units: seq<string>)
    ensures var i := PricePosition(q, ops, units, 0);
      i > |q| <==> NoAmountBefore(q, |q| + 1, ops, units)
    ensures var i := PricePosition(q, ops, units, 0);
      i <= |q| ==>
        var k := OperatorIndex(q, i, ops, units, 0);
        k < |ops| && OperatorAmountAt(q, i, ops[k], units)
        && PriceMatchAt(q, i, ops, units).value.operator == q[i..i + |ops[k]|]
        && NoAmountBefore(q, i, ops, units)
  {
    var i := PricePosition(q, ops, units, 0);
    forall j, l | 0 <= j < i && j <= |q| && 0 <= l < |ops|
      ensures !OperatorAmountAt(q, j, ops[l], units)
    {
      assert PriceMatchAt(q, j, ops, units).None?;
      assert OperatorIndex(q, j, ops, units, 0) == |ops|;
    }
    assert NoAmountBefore(q, i, ops, units);
  }

  // ---------------------------------------------------------------------
  // Reading a well-formed price phrase

  /** No word of the table is a prefix of another. */
  predicate PrefixFree(words: seq<string>) {
    forall j, k :: 0 <= j < |words| && 0 <= k < |words| && j != k && |words[j]| <= |words[k]| ==>
      words[k][..|words[j]|] != words[j]
  }

  /** Every word of the table starts with a character that is not whitespace. */
  predicate SolidWords(words: seq<string>) {
    forall k :: 0 <= k < |words| ==> |words[k]| > 0 && !IsSpace(words[k][0])
  }

  /** Words of at least n characters whose first n characters differ pairwise
      form a prefix-free table. */
  lemma HeadsDiffer(words: seq<string>, n: nat)
    requires forall k :: 0 <= k < |words| ==> n <= |words[k]|
    requires forall j, k :: 0 <= j < k < |words| ==> words[j][..n] != words[k][..n]
    ensures PrefixFree(words)
  {
    forall j, k | 0 <= j < |words| && 0 <= k < |words| && j != k && |words[j]| <= |words[k]|
      ensures words[k][..|words[j]|] != words[j]
    {
      assert words[k][..|words[j]|][..n] == words[k][..n];
      if j < k {
        assert words[j][..n] != words[k][..n];
      } else {
        assert words[k][..n] != words[j][..n];
      }
    }
  }

  /** The unit words start with distinct letters. */
  lemma UnitTableShape()
    ensures PrefixFree(PriceUnits) && SolidWords(PriceUnits)
  {
    assert PriceUnits[0][..1] == "t" && PriceUnits[1][..1] == "n";
    assert PriceUnits[2][..1] == "k" && PriceUnits[3][..1] == "m";
    HeadsDiffer(PriceUnits, 1);
  }

  /** The operator words differ in their first two letters. */
  lemma OperatorTableShape()
    ensures PrefixFree(PriceOperators)
  {
    assert PriceOperators[0][..2] == "dư" && PriceOperators[1][..2] == "tr";
    assert PriceOperators[2][..2] == "kh" && PriceOperators[3][..2] == "từ";
    assert PriceOperators[4][..2] == "đế";
    HeadsDiffer(PriceOperators, 2);
  }

  /** In a prefix-free lower-case table, once one word occurs at i (ignoring
      case) no other word does. */
  lemma OnlyAlternative(q: string, i: nat, words: seq<string>, k0: nat, j: nat)
    requires IsLowerTable(words) && PrefixFree(words) && k0 < |words| && j < |words| && j != k0
    requires StartsAtIgnoringCase(q, i, words[k0])
    ensures !StartsAtIgnoringCase(q, i, words[j])
  {
    assert Lower(words[j]) == words[j] && Lower(words[k0]) == words[k0];
    BothMatchPrefix(q, i, words[k0], words[j]);
  }

  /** Text whose lower-case form is a word occurs there, ignoring case. */
  lemma LowerImpliesMatch(q: string, i: nat, text: string, w: string)
    requires StartsAt(q, i, text) && Lower(text) == w && Lower(w) == w
    ensures StartsAtIgnoringCase(q, i, w)
  {
    forall c | 0 <= c < |w| ensures LowerChar(q[i + c]) == LowerChar(w[c]) {
      assert q[i + c] == q[i..i + |text|][c] == text[c];
      assert Lower(text)[c] == LowerChar(text[c]);
      assert Lower(w)[c] == LowerChar(w[c]);
    }
  }

  /** The first unit word that occurs at b is the one the unit text lowers to. */
  lemma UnitOfPhrase(q: string, b: nat, unit: string, units: seq<string>, u0: nat)
    requires IsLowerTable(units) && PrefixFree(units) && u0 < |units|
    requires StartsAt(q, b, unit) && Lower(unit) == units[u0]
    ensures UnitIndex(q, b, units, 0) == u0
  {
    assert Lower(units[u0]) == units[u0];
    LowerImpliesMatch(q, b, unit, units[u0]);
    var u := UnitIndex(q, b, units, 0);
    if u != u0 && u < |units| {
      OnlyAlternative(q, b, units, u0, u);
    }
  }

  /** The whitespace and digit runs of " " + ds + " " + c at position j,
      where c is not whitespace. */
  lemma PhraseRuns(q: string, j: nat, ds: string)
    requires ds != [] && AllDigits(ds)
    requires j + 3 + |ds| <= |q| && q[j] == ' ' && StartsAt(q, j + 1, ds) && q[j + 1 + |ds|] == ' '
    requires !IsSpace(q[j + 2 + |ds|])
    ensures SpaceRun(q, j) == 1 && DigitRun(q, j + 1) == |ds| && SpaceRun(q, j + 1 + |ds|) == 1
  {
    assert q[j + 1] == q[j + 1..j + 1 + |ds|][0] == ds[0] && IsDigit(ds[0]);
    SpaceRunOne(q, j);
    DigitRunOf(q, j + 1, ds);
    SpaceRunOne(q, j + 1 + |ds|);
  }

  /** What \s*(\d+)\s*(unit) reads from " " + ds + " " + unit at position j. */
  lemma AmountOfPhrase(q: string, j: nat, ds: string, unit: string, units: seq<string>, u0: nat)
    requires IsLowerTable(units) && PrefixFree(units) && SolidWords(units) && u0 < |units|
    requires ds != [] && AllDigits(ds) && Lower(unit) == units[u0]
    requires j + 2 + |ds| <= |q| && q[j] == ' ' && StartsAt(q, j + 1, ds) && q[j + 1 + |ds|] == ' '
    requires StartsAt(q, j + 2 + |ds|, unit)
    ensures AmountAfter(q, j, units) == Some(Amount(ds, unit))
  {
    var b := j + 2 + |ds|;
    assert |units[u0]| > 0 && !IsSpace(units[u0][0]);
    assert q[b] == q[b..b + |unit|][0] == unit[0];
    assert Lower(unit)[0] == LowerChar(unit[0]);
    PhraseRuns(q, j, ds);
    UnitOfPhrase(q, b, unit, units, u0);
    assert |unit| == |units[u0]|;
  }

  /** Where op occurs at i and an amount follows it, the operator that
      completes first at i is the one op lowers to. */
  lemma OperatorOfPhrase(q: string, i: nat, op: string, k0: nat)
    requires k0 < |PriceOperators| && Lower(op) == PriceOperators[k0] && StartsAt(q, i, op)
    requires AmountAfter(q, i + |op|, PriceUnits).Some?
    ensures OperatorIndex(q, i, PriceOperators, PriceUnits, 0) == k0
  {
    OperatorsAreLowerCase();
    OperatorTableShape();
    assert Lower(PriceOperators[k0]) == PriceOperators[k0];
    LowerImpliesMatch(q, i, op, PriceOperators[k0]);
    assert OperatorAmountAt(q, i, PriceOperators[k0], PriceUnits);
    var k := OperatorIndex(q, i, PriceOperators, PriceUnits, 0);
    if k != k0 && k < |PriceOperators| {
      OnlyAlternative(q, i, PriceOperators, k0, k);
    }
  }

  /** Where the pieces of op + " " + ds + " " + unit + rest sit. */
  lemma PhraseLayout(op: string, ds: string, unit: string, rest: string)
    ensures var q := op + " " + ds + " " + unit + rest; var j := |op|;
      j + 2 + |ds| + |unit| <= |q| && StartsAt(q, 0, op) && q[j] == ' ' && StartsAt(q, j + 1, ds)
      && q[j + 1 + |ds|] == ' ' && StartsAt(q, j + 2 + |ds|, unit)
  {
    var q := op + " " + ds + " " + unit + rest;
    var j := |op|;
    forall c | 0 <= c < |op| ensures q[c] == op[c] {
    }
    assert q[..j] == op;
    forall c | 0 <= c < |ds| ensures q[j + 1 + c] == ds[c] {
    }
    assert q[j + 1..j + 1 + |ds|] == ds;
    var b := j + 2 + |ds|;
    forall c | 0 <= c < |unit| ensures q[b + c] == unit[c] {
    }
    assert q[b..b + |unit|] == unit;
  }

  /** Every attempt of the price pattern before position i fails. */
  predicate NoPriceBefore(q: string, i: nat) {
    forall j :: 0 <= j < i ==> PriceMatchAt(q, j, PriceOperators, PriceUnits).None?
  }

  /** The controller's units read " " + ds + " " + unit at j as those captures. */
  lemma PriceAmountOfPhrase(q: string, j: nat, ds: string, unit: string)
    requires Lower(unit) in PriceUnits && ds != [] && AllDigits(ds)
    requires j + 2 + |ds| <= |q| && q[j] == ' ' && StartsAt(q, j + 1, ds) && q[j + 1 + |ds|] == ' '
    requires StartsAt(q, j + 2 + |ds|, unit)
    ensures AmountAfter(q, j, PriceUnits) == Some(Amount(ds, unit))
  {
    var u0 :| 0 <= u0 < |PriceUnits| && PriceUnits[u0] == Lower(unit);
    UnitsAreLowerCase();
    UnitTableShape();
    AmountOfPhrase(q, j, ds, unit, PriceUnits, u0);
  }

  /** The attempt at i reads op, a space, the digits ds, a space and unit
      as exactly those captures. */
  lemma PhraseAttempt(q: string, i: nat, op: string, ds: string, unit: string)
    requires Lower(op) in PriceOperators && Lower(unit) in PriceUnits
    requires ds != [] && AllDigits(ds)
    requires StartsAt(q, i, op) && i + |op| + 2 + |ds| <= |q| && q[i + |op|] == ' ' && StartsAt(q, i + |op| + 1, ds)
    requires q[i + |op| + 1 + |ds|] == ' ' && StartsAt(q, i + |op| + 2 + |ds|, unit)
    ensures PriceMatchAt(q, i, PriceOperators, PriceUnits) == Some(PriceMatch(op, ds, unit))
  {
    var k0 :| 0 <= k0 < |PriceOperators| && PriceOperators[k0] == Lower(op);
    PriceAmountOfPhrase(q, i + |op|, ds, unit);
    OperatorOfPhrase(q, i, op, k0);
    MatchOfOperator(q, i, PriceOperators, PriceUnits, k0, op, Amount(ds, unit));
  }

  /** The attempt at i is made of the operator text found there and the
      amount after it. */
  lemma MatchOfOperator(q: string, i: nat, ops: seq<string>, units: seq<string>, k: nat, op: string, a: Amount)
    requires k < |ops| && OperatorIndex(q, i, ops, units, 0) == k && |ops[k]| == |op|
    requires StartsAt(q, i, op) && AmountAfter(q, i + |op|, units) == Some(a)
    ensures PriceMatchAt(q, i, ops, units) == Some(PriceMatch(op, a.digits, a.unit))
  {
    assert AmountAfter(q, i + |ops[k]|, units).value == a;
  }

  /** query.match returns the attempt at the first position where one succeeds. */
  lemma FirstSuccessfulAttempt(q: string, i: nat)
    requires i <= |q| && NoPriceBefore(q, i) && PriceMatchAt(q, i, PriceOperators, PriceUnits).Some?
    ensures PriceSearch(q) == PriceMatchAt(q, i, PriceOperators, PriceUnits)
  {
    assert PricePosition(q, PriceOperators, PriceUnits, 0) == i;
  }

  /** Where the attempts at every position before i fail and op, a space,
      the digits ds, a space and unit follow at i, the price pattern matches
      at i with exactly those captures. */
  lemma PriceAt(q: string, i: nat, op: string, ds: string, unit: string)
    requires Lower(op) in PriceOperators && Lower(unit) in PriceUnits
    requires ds != [] && AllDigits(ds)
    requires StartsAt(q, i, op) && i + |op| + 2 + |ds| <= |q| && q[i + |op|] == ' ' && StartsAt(q, i + |op| + 1, ds)
    requires q[i + |op| + 1 + |ds|] == ' ' && StartsAt(q, i + |op| + 2 + |ds|, unit)
    requires NoPriceBefore(q, i)
    ensures PriceSearch(q) == Some(PriceMatch(op, ds, unit))
  {
    PhraseAttempt(q, i, op, ds, unit);
    FirstSuccessfulAttempt(q, i);
  }

  /** The price pattern matches op + " " + ds + " " + unit + rest at its
      start, with exactly those three captures. */
  lemma PhraseMatch(op: string, ds: string, unit: string, rest: string)
    requires Lower(op) in PriceOperators && Lower(unit) in PriceUnits
    requires ds != [] && AllDigits(ds)
    ensures PriceSearch(op + " " + ds + " " + unit + rest) == Some(PriceMatch(op, ds, unit))
  {
    PhraseLayout(op, ds, unit, rest);
    PriceAt(op + " " + ds + " " + unit + rest, 0, op, ds, unit);
  }

  /** A phrase "operator number unit", with single spaces, at the start of the
      query is read as that operator (with the user's casing) and the number
      scaled by the unit. */
  lemma PricePhrase(op: string, ds: string, unit: string, rest: string)
    requires Lower(op) in PriceOperators && Lower(unit) in PriceUnits
    requires ds != [] && AllDigits(ds)
    ensures ExtractPrice(op + " " + ds + " " + unit + rest) ==
      Some(PriceRange(op, DigitsValue(ds) * (if Lower(unit) == "triệu" || Lower(unit) == "m" then 1000000 else 1000)))
  {
    PhraseMatch(op, ds, unit, rest);
    UnitScale(Lower(unit));
  }

  /** The range a price match denotes. */
  lemma RangeOfMatch(q: string, op: string, ds: string, unit: string, amount: int)
    requires PriceSearch(q) == Some(PriceMatch(op, ds, unit))
    requires AllDigits(ds) && amount == DigitsValue(ds) * Multiplier(Lower(unit))
    ensures ExtractPrice(q) == Some(PriceRange(op, amount))
  {
  }

  /** The words and numbers of the examples below. */
  lemma ExampleWords()
    ensures Lower("dưới") == "dưới" && Lower("Dưới") == "dưới" && Lower("từ") == "từ"
    ensures Lower("triệu") == "triệu" && Lower("k") == "k"
    ensures AllDigits("5") && DigitsValue("5") == 5
    ensures AllDigits("500") && DigitsValue("500") == 500
  {
    assert DigitsValue("500") == DigitsValue("50") * 10;
  }

  /** Where operator, number and unit sit in a query starting with a
      twelve-character phrase "xxxx 5 yyyyy". */
  lemma FiveUnitPieces(q: string, phrase: string)
    requires 12 <= |q| && q[..12] == phrase && |phrase| == 12
    ensures StartsAt(q, 0, phrase[..4]) && q[4] == phrase[4] && StartsAt(q, 5, phrase[5..6])
    ensures q[6] == phrase[6] && StartsAt(q, 7, phrase[7..12])
  {
    assert q[0..4] == q[..12][..4];
    assert q[5..6] == q[..12][5..6];
    assert q[7..12] == q[..12][7..12];
    assert q[4] == q[..12][4] && q[6] == q[..12][6];
  }

  /** A query that starts with "dưới 5 triệu" asks for prices below five million. */
  lemma UnderFiveMillion(q: string)
    requires 12 <= |q| && q[..12] == "dưới 5 triệu"
    ensures ExtractPrice(q) == Some(PriceRange("dưới", 5000000))
  {
    FiveUnitPieces(q, "dưới 5 triệu");
    ExampleWords();
    PriceAt(q, 0, "dưới", "5", "triệu");
    RangeOfMatch(q, "dưới", "5", "triệu", 5000000);
  }

  /** The operator keeps the user's capital letter: "Dưới", not "dưới". */
  lemma CapitalisedOperatorKept(q: string)
    requires 12 <= |q| && q[..12] == "Dưới 5 triệu"
    ensures ExtractPrice(q) == Some(PriceRange("Dưới", 5000000))
  {
    FiveUnitPieces(q, "Dưới 5 triệu");
    ExampleWords();
    PriceAt(q, 0, "Dưới", "5", "triệu");
    RangeOfMatch(q, "Dưới", "5", "triệu", 5000000);
  }

  /** Where operator, number and unit sit in a query starting "từ 500 k". */
  lemma FiveHundredKPieces(q: string)
    requires 8 <= |q| && q[..8] == "từ 500 k"
    ensures StartsAt(q, 0, "từ") && q[2] == ' ' && StartsAt(q, 3, "500") && q[6] == ' ' && StartsAt(q, 7, "k")
  {
    assert q[0..2] == q[..8][..2];
    assert q[3..6] == q[..8][3..6];
    assert q[7..8] == q[..8][7..8];
    assert q[2] == q[..8][2] && q[6] == q[..8][6];
  }

  /** "từ 500 k" is read as half a million: k scales by a thousand. */
  lemma FromFiveHundredK(q: string)
    requires 8 <= |q| && q[..8] == "từ 500 k"
    ensures ExtractPrice(q) == Some(PriceRange("từ", 500000))
  {
    FiveHundredKPieces(q);
    ExampleWords();
    PriceAt(q, 0, "từ", "500", "k");
    RangeOfMatch(q, "từ", "500", "k", 500000);
  }

  /** c and d lower-case to the first two letters of an operator word. */
  predicate OperatorHead(c: char, d: char) {
    var a, b := LowerChar(c), LowerChar(d);
    (a == 'd' && b == 'ư') || (a == 't' && (b == 'r' || b == 'ừ')) || (a == 'k' && b == 'h') || (a == 'đ' && b == 'ế')
  }

  /** Each operator word begins with one of those pairs. */
  lemma OperatorHeads(k: nat)
    requires k < |PriceOperators|
    ensures |PriceOperators[k]| >= 2 && OperatorHead(PriceOperators[k][0], PriceOperators[k][1])
  {
  }

  /** The price pattern cannot start where the text does not begin an
      operator word. */
  lemma NoHeadNoMatch(q: string, j: nat)
    requires j + 1 < |q| ==> !OperatorHead(q[j], q[j + 1])
    ensures PriceMatchAt(q, j, PriceOperators, PriceUnits).None?
  {
    var k := OperatorIndex(q, j, PriceOperators, PriceUnits, 0);
    if k < |PriceOperators| {
      OperatorHeads(k);
      assert false;
    }
  }

  /** None of the letters an operator word can start with. */
  predicate NoOperatorLetter(s: string) {
    forall k :: 0 <= k < |s| ==> s[k] !in "dDtTkKđ"
  }

  /** No attempt of the price pattern succeeds at a position of a stretch
      without operator letters. */
  lemma NoMatchInStretch(q: string, lo: nat, hi: nat)
    requires lo <= hi <= |q| && NoOperatorLetter(q[lo..hi])
    ensures forall j :: lo <= j < hi ==> PriceMatchAt(q, j, PriceOperators, PriceUnits).None?
  {
    forall j | lo <= j < hi ensures PriceMatchAt(q, j, PriceOperators, PriceUnits).None? {
      assert q[j] == q[lo..hi][j - lo];
      NoHeadNoMatch(q, j);
    }
  }

  /** Where the pieces sit in a query starting "điện thoại ram 8gb dưới 5 triệu". */
  lemma PhoneQueryPieces(q: string)
    requires 31 <= |q| && q[..31] == "điện thoại ram 8gb dưới 5 triệu"
    ensures q[0] == 'đ' && q[1] == 'i' && q[5] == 't' && q[6] == 'h'
    ensures q[1..5] == "iện " && q[6..19] == "hoại ram 8gb "
    ensures StartsAt(q, 19, "dưới") && q[23] == ' ' && StartsAt(q, 24, "5") && q[25] == ' ' && StartsAt(q, 26, "triệu")
  {
    var l := q[..31];
    PhoneQuerySplit();
    assert q[1..5] == l[1..5] && q[6..19] == l[6..19];
    assert q[19..23] == l[19..23] && q[24..25] == l[24..25] && q[26..31] == l[26..31];
    assert q[0] == l[0] && q[1] == l[1] && q[5] == l[5] && q[6] == l[6];
    assert q[23] == l[23] && q[25] == l[25];
  }

  /** No attempt succeeds in "điện thoại ram 8gb ": only "đi" and "th" begin
      with an operator's first letter, and neither pair begins an operator. */
  lemma PhonePrefixHasNoPrice(q: string)
    requires 31 <= |q| && q[..31] == "điện thoại ram 8gb dưới 5 triệu"
    ensures NoPriceBefore(q, 19)
  {
    PhoneQueryPieces(q);
    PhoneStretches();
    NoHeadNoMatch(q, 0);
    NoHeadNoMatch(q, 5);
    NoMatchInStretch(q, 1, 5);
    NoMatchInStretch(q, 6, 19);
    forall j | 0 <= j < 19 ensures PriceMatchAt(q, j, PriceOperators, PriceUnits).None? {
      if j != 0 && j != 5 {
        assert 1 <= j < 5 || 6 <= j < 19;
      }
    }
  }

  /** The example query, cut where its words begin. */
  lemma PhoneQuerySplit()
    ensures "điện thoại ram 8gb dưới 5 triệu" == "đ" + "iện " + "t" + "hoại ram 8gb " + "dưới" + " " + "5" + " " + "triệu"
  {
  }

  /** The stretches of the example between "điện", "thoại" and "dưới"
      hold no letter an operator starts with. */
  lemma PhoneStretches()
    ensures NoOperatorLetter("iện ") && NoOperatorLetter("hoại ram 8gb ")
  {
  }

  /** The price phrase need not lead the query: in "điện thoại ram 8gb dưới
      5 triệu" no attempt succeeds before "dưới", so the range is read there. */
  lemma PhoneUnderFiveMillion(q: string)
    requires 31 <= |q| && q[..31] == "điện thoại ram 8gb dưới 5 triệu"
    ensures ExtractPrice(q) == Some(PriceRange("dưới", 5000000))
  {
    PhoneQueryPieces(q);
    PhonePrefixHasNoPrice(q);
    ExampleWords();
    PriceAt(q, 19, "dưới", "5", "triệu");
    RangeOfMatch(q, "dưới", "5", "triệu", 5000000);
  }

  /** The example query, cut where "điện thoại" and "ram 8gb" sit. */
  lemma PhoneQueryRamSplit()
    ensures "điện thoại ram 8gb dưới 5 triệu" == "điện thoại" + " " + "ram" + " " + "8" + "g" + "b dưới 5 triệu"
  {
  }

  /** Where the type keyword and the RAM phrase sit in a query starting
      "điện thoại ram 8gb dưới 5 triệu". */
  lemma PhoneQueryHead(q: string)
    requires 31 <= |q| && q[..31] == "điện thoại ram 8gb dưới 5 triệu"
    ensures q[..10] == "điện thoại" && q[10] == ' ' && StartsAt(q, 11, "ram")
    ensures q[14] == ' ' && q[15] == '8' && q[16] == 'g'
  {
    var l := q[..31];
    PhoneQueryRamSplit();
    assert q[..10] == l[..10] && q[11..14] == l[11..14];
    assert q[10] == l[10] && q[14] == l[14] && q[15] == l[15] && q[16] == l[16];
  }

  /** No letter an alternative of the RAM group starts with. */
  predicate NoRamLetter(s: string) {
    forall k :: 0 <= k < |s| ==> s[k] !in "rRmM"
  }

  lemma PhoneTypeWordHasNoRamLetter()
    ensures NoRamLetter("điện thoại")
  {
  }

  /** An attempt of a specification pattern fails where the character does
      not lower-case to the first letter of any alternative. */
  lemma NoKeywordHeadAt(q: string, j: nat, kws: seq<string>)
    requires j < |q| && forall k :: 0 <= k < |kws| ==> |kws[k]| > 0 && LowerChar(q[j]) != LowerChar(kws[k][0])
    ensures SpecMatchAt(q, j, kws).None?
  {
    forall k | 0 <= k < |kws| ensures !StartsAtIgnoringCase(q, j, kws[k]) {
      assert LowerChar(q[j + 0]) != LowerChar(kws[k][0]);
    }
  }

  /** The RAM pattern fails at every position of "điện thoại " and
      captures '8' from "ram 8gb" right after it. */
  lemma PhoneRamAttempts(q: string)
    requires 31 <= |q| && q[..31] == "điện thoại ram 8gb dưới 5 triệu"
    ensures forall j :: 0 <= j < 11 ==> SpecMatchAt(q, j, SpecGroups[0].keywords).None?
    ensures SpecMatchAt(q, 11, SpecGroups[0].keywords) == Some("8")
  {
    var kws := SpecGroups[0].keywords;
    assert kws == ["ram", "memory"];
    PhoneQueryHead(q);
    PhoneTypeWordHasNoRamLetter();
    forall j | 0 <= j < 11 ensures SpecMatchAt(q, j, kws).None? {
      if j < 10 {
        assert q[j] == q[..10][j];
      }
      NoKeywordHeadAt(q, j, kws);
    }
    assert StartsAtIgnoringCase(q, 11, kws[0]);
    assert SpaceRun(q, 15) == 0;
    assert SpaceRun(q, 14) == 1;
    assert DigitRun(q, 16) == 0;
    assert DigitRun(q, 15) == 1;
    assert NumberAfter(q, 14) == q[15..16] == "8";
    assert KeywordNumberAt(q, 11, kws[0]);
    assert KeywordIndex(q, 11, kws, 0) == 0;
  }

  /** query.match of the RAM pattern on that query captures '8'. */
  lemma PhoneRamEight(q: string)
    requires 31 <= |q| && q[..31] == "điện thoại ram 8gb dưới 5 triệu"
    ensures SpecSearch(q, SpecGroups[0].keywords) == Some("8")
  {
    PhoneRamAttempts(q);
    assert SpecPosition(q, SpecGroups[0].keywords, 0) == 11;
  }

  /** The lower-cased query begins with the phone row's first keyword. */
  lemma PhoneTypeDetected(q: string)
    requires 31 <= |q| && q[..31] == "điện thoại ram 8gb dưới 5 triệu"
    ensures DetectType(Lower(q), ProductTypes) == Some("điện thoại")
  {
    PhoneQueryHead(q);
    assert q == q[..10] + q[10..];
    LowerConcat(q[..10], q[10..]);
    LowerOfLower("điện thoại");
    assert StartsAt(Lower(q), 0, "điện thoại");
    assert TypeHit(Lower(q), ProductTypes, 0);
  }

  /** A typical query: "điện thoại ram 8gb dưới 5 triệu"
      reads as a phone with ram '8' under 5,000,000. */
  lemma PhoneQueryAnalysis(q: string)
    requires 31 <= |q| && q[..31] == "điện thoại ram 8gb dưới 5 triệu"
    ensures Analyze(q).productType == Some("điện thoại")
    ensures "ram" in Analyze(q).specifications && Analyze(q).specifications["ram"] == "8"
    ensures Analyze(q).priceRange == Some(PriceRange("dưới", 5000000))
  {
    PhoneTypeDetected(q);
    PhoneRamEight(q);
    SpecificationsOfQuery(q, 0);
    PhoneUnderFiveMillion(q);
  }

  // ---------------------------------------------------------------------
  // Queries without numbers

  predicate NoDigits(q: string) {
    forall k :: 0 <= k < |q| ==> !IsDigit(q[k])
  }

  lemma NoNumberAfter(q: string, j: nat)
    requires NoDigits(q) && j <= |q|
    ensures NumberAfter(q, j) == [] && AmountAfter(q, j, PriceUnits).None?
  {
    var e := j + SpaceRun(q, j);
    assert DigitRun(q, e) == 0;
  }

  /** Without a digit no specification pattern matches anywhere. */
  lemma NoDigitsNoSpec(q: string, kws: seq<string>)
    requires NoDigits(q)
    ensures SpecSearch(q, kws).None?
  {
    forall j | 0 <= j <= |q| ensures NumberAfter(q, j) == [] {
      NoNumberAfter(q, j);
    }
    var i := SpecPosition(q, kws, 0);
    var k := KeywordIndex(q, i, kws, 0);
  }

  lemma {:induction false} NoSpecificationsWithoutDigits(q: string, groups: seq<Entry>)
    requires NoDigits(q)
    ensures Specifications(q, groups) == map[]
  {
    if groups != [] {
      NoSpecificationsWithoutDigits(q, groups[..|groups| - 1]);
      NoDigitsNoSpec(q, groups[|groups| - 1].keywords);
    }
  }

  /** Without a digit no price pattern matches anywhere. */
  lemma NoDigitsNoPrice(q: string)
    requires NoDigits(q)
    ensures ExtractPrice(q).None?
  {
    forall j | 0 <= j <= |q| ensures AmountAfter(q, j, PriceUnits).None? {
      NoNumberAfter(q, j);
    }
    var i := PricePosition(q, PriceOperators, PriceUnits, 0);
    var k := OperatorIndex(q, i, PriceOperators, PriceUnits, 0);
  }

  /** A query without digits has no specifications and no price range. */
  lemma NoDigitsNoNumbers(q: string)
    requires NoDigits(q)
    ensures Analyze(q).specifications == map[] && Analyze(q).priceRange.None?
  {
    NoSpecificationsWithoutDigits(q, SpecGroups);
    NoDigitsNoPrice(q);
  }

  /** "xin chào" has none of the letters đ, s, p, m, l, t, e, w, and every
      keyword of the lexicon has one of them. */
  lemma GreetingMissesPhones(q: string)
    requires q == "xin chào"
    ensures !TypeHit(q, ProductTypes, 0)
  {
    assert 'đ' !in q && 's' !in q && 'p' !in q && 'm' !in q;
    NoneContained(q, ProductTypes[0].keywords, "đspm");
  }

  lemma GreetingMissesComputers(q: string)
    requires q == "xin chào"
    ensures !TypeHit(q, ProductTypes, 1) && !TypeHit(q, ProductTypes, 2)
  {
    assert 'l' !in q && 'm' !in q && 't' !in q;
    NoneContained(q, ProductTypes[1].keywords, "lmm");
    NoneContained(q, ProductTypes[2].keywords, "tm");
  }

  lemma GreetingMissesHeadphones(q: string)
    requires q == "xin chào"
    ensures !TypeHit(q, ProductTypes, 3)
  {
    assert 't' !in q && 'e' !in q;
    NoneContained(q, ProductTypes[3].keywords, "tee");
  }

  lemma GreetingMissesSpeakersAndWatches(q: string)
    requires q == "xin chào"
    ensures !TypeHit(q, ProductTypes, 4) && !TypeHit(q, ProductTypes, 5)
  {
    assert 'l' !in q && 's' !in q && 'đ' !in q && 'w' !in q;
    NoneContained(q, ProductTypes[4].keywords, "ls");
    NoneContained(q, ProductTypes[5].keywords, "đws");
  }

  /** No keyword of the lexicon occurs in "xin chào". */
  lemma GreetingMissesLexicon(q: string)
    requires q == "xin chào"
    ensures DetectType(q, ProductTypes).None?
  {
    GreetingMissesPhones(q);
    GreetingMissesComputers(q);
    GreetingMissesHeadphones(q);
    GreetingMissesSpeakersAndWatches(q);
    DetectTypeNone(q);
  }

  /** A greeting leaves every field of the record at its default. */
  lemma GreetingIsEmpty(q: string)
    requires q == "xin chào"
    ensures Analyze(q) == Initial
  {
    LowerOfLower(q);
    GreetingMissesLexicon(q);
    assert NoDigits(q);
    NoDigitsNoNumbers(q);
  }
}
