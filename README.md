# Chat-bot product search: a Dafny model

This project models the decision logic of the shop's chat-bot back end.

- **Query analysis.** `analyzeQuery` turns a free-text question (Vietnamese or English) into a criteria record. The record holds a product type taken from a fixed lexicon, specifications (RAM, storage, screen, camera, battery) read by keyword-and-number patterns, and a price range read by an operator–number–unit pattern.
- **Tiered catalog search.** `searchProductsByCriteria` filters a product catalog with that record. Tier 1 applies the type and price filters at similarity 0.8. Tier 2 is a keyword fallback over the whole catalog at 0.7. Tier 3 returns the first ten products at 0.5.
- **Image search filter.** The product filter of `searchByImage` applies to an already parsed `{productType, brand}`.
- **Natural-language handler.** `processNaturalLanguageQuery` is modelled as a thin wrapper.
- **Upload rules.** The image-upload route has an accept rule: extension and MIME type must each contain `jpeg|jpg|png|gif|webp`. It also sets a 5 MiB size limit and a stored-file-name shape.

The three regular expressions of `analyzeQuery` are written out as scanners over `seq<char>`:

- A scanner makes one attempt at a position, trying the alternatives in declaration order.
- It then searches for the leftmost position, which is what `String.prototype.match` does with a non-global pattern.

The controller's imperative `analyzeQuery` becomes the method `QueryAnalyzer.AnalyzeQuery`. It calls `FindProductType` and `FindSpecifications`, whose loops over the lexicon and over the specification groups carry their invariants, and `FindPriceRange`. It is proved equal to the function `QueryAnalyzer.Analyze`, which states what it computes. All the properties are proved about that function. The search and the filters are `filter`/`map`/`slice` chains over a catalog that is never mutated, so they are functions. The catalog, which the controller loads from a data module, is a parameter.

Modules:

- `Text`: lower-casing, the classes `\d` and `\s`, substring tests, `parseInt` of digits.
- `Seqs`: filter and subsequence facts.
- `QueryAnalyzer` and `AnalyzerProperties`.
- `CatalogMatcher` and `MatcherProperties`.
- `NaturalQuery`.
- `UploadRules`.

Similarities are integers in hundredths (80, 70, 50).

The greeting "xin chào" has no type, no specification and no price. So tier 1 applies no filter, and the answer is the whole catalog at 0.8 (`MatcherProperties.GreetingReturnsCatalog`), rather than one of the fallback tiers. The handler then shows its first ten (`NaturalQuery.GreetingShowsFirstTen`).

## Model

| member | source | states |
|---|---|---|
| Text.LowerCharIdempotent | backend/controllers/ChatBotController.js:55 | Lower-casing a character leaves no ASCII capital, and lower-casing it again changes nothing. |
| Text.LowerIdempotent | backend/controllers/ChatBotController.js:55 | `toLowerCase` applied twice is `toLowerCase` applied once. |
| Text.LowerConcat | backend/controllers/ChatBotController.js:55 | Lower-casing a concatenation lower-cases each part. |
| Text.LowerOfLower | backend/controllers/ChatBotController.js:55 | A string without ASCII capitals is its own lower-case form. |
| Text.Lower | backend/controllers/ChatBotController.js:55 | `toLowerCase`, for ASCII letters only: the result has the same length, and each character is lower-cased on its own, A–Z to a–z and every other character unchanged. |
| Text.IsSpace | backend/controllers/ChatBotController.js:84-92 | The class `\s`: the ECMAScript white-space and line-terminator characters, from tab and space to U+3000 and U+FEFF. |
| Text.StartsAtIgnoringCase | backend/controllers/ChatBotController.js:84-92 | The 'i' flag: p occurs in s at position i when each character is compared after ASCII lower-casing. |
| Text.DigitRunIsMaximal | backend/controllers/ChatBotController.js:84-92 | The run `\d+` consumes is all digits and is not followed by a digit. |
| Text.SpaceRunIsMaximal | backend/controllers/ChatBotController.js:84-92 | The run `\s*` consumes is all whitespace and is not followed by whitespace. |
| Text.DigitsValueConcat | backend/controllers/ChatBotController.js:95 | parseInt of a + b is parseInt(a) × 10^|b| + parseInt(b), for digit strings a and b. |
| Text.DigitsValueBound | backend/controllers/ChatBotController.js:95 | parseInt of n digits is below 10^n. |
| Text.DigitsValue | backend/controllers/ChatBotController.js:95 | parseInt of a string of decimal digits: the digits read in base 10, most significant first. A single digit is its own value; `DigitsValueConcat` and `DigitsValueBound` state the general case. |
| QueryAnalyzer.AnalyzeQuery | backend/controllers/ChatBotController.js:46-109 | The imperative analysis starts from the default record and fills type, specifications and price in turn. It ends with exactly the record `Analyze` describes. |
| QueryAnalyzer.FindProductType | backend/controllers/ChatBotController.js:67-72 | The loop over the lexicon that leaves at the first row with a keyword in the lower-cased query yields `DetectType`. |
| QueryAnalyzer.FindSpecifications | backend/controllers/ChatBotController.js:83-89 | The loop over the specification groups yields `Specifications`. It stores each group's first capture under the group's name. |
| QueryAnalyzer.FindPriceRange | backend/controllers/ChatBotController.js:91-106 | The price step yields `ExtractPrice`. It takes parseInt of the digits, multiplies by the lower-cased unit's factor, and keeps the operator's matched text. |
| QueryAnalyzer.Analyze | backend/controllers/ChatBotController.js:47-53 | The brand is always null and the intent always 'search'. |
| QueryAnalyzer.TypeIndex | backend/controllers/ChatBotController.js:67-72 | This is the index of the first row that hits. No row before it hits. |
| QueryAnalyzer.DetectType | backend/controllers/ChatBotController.js:67-72 | The product type: the key of the first lexicon row with a keyword in the lower-cased query, null when there is none. `DetectTypeIsFirstHit` and `DetectTypeNone` prove this. |
| QueryAnalyzer.KeywordIndex | backend/controllers/ChatBotController.js:84-85 | This is the first alternative of the specification pattern that completes at a position. No earlier alternative completes there. |
| QueryAnalyzer.KeywordNumberAt | backend/controllers/ChatBotController.js:84 | The alternative kw matches at a position, ignoring case, and is followed by optional whitespace and at least one digit. |
| QueryAnalyzer.SpecMatchAt | backend/controllers/ChatBotController.js:84-86 | One attempt of the specification pattern at a position: the digits after the first alternative that completes there, or failure. `SpecMatchIsFirstAlternative` and `SpecMatchCapture` prove this. |
| QueryAnalyzer.SpecPosition | backend/controllers/ChatBotController.js:85 | This is the leftmost position where the specification pattern matches. It fails at every earlier position. |
| QueryAnalyzer.SpecSearch | backend/controllers/ChatBotController.js:84-86 | query.match of the specification pattern: the capture of the attempt at the leftmost position where one succeeds, or null. `SpecSearchIsLeftmost` and `SpecCaptureIsDigitRun` prove this. |
| QueryAnalyzer.NumberAfter | backend/controllers/ChatBotController.js:84 | What `\s*(\d+)` captures is a digit string. |
| QueryAnalyzer.Specifications | backend/controllers/ChatBotController.js:83-89 | Every key of the map is the name of a group. |
| QueryAnalyzer.UnitIndex | backend/controllers/ChatBotController.js:92 | This is the first unit alternative that occurs at a position, ignoring case. No earlier unit occurs there. |
| QueryAnalyzer.AmountAfter | backend/controllers/ChatBotController.js:92 | A completed `\s*(\d+)\s*(unit)` has a non-empty digit capture. |
| QueryAnalyzer.OperatorIndex | backend/controllers/ChatBotController.js:92 | This is the first operator alternative with which the price pattern completes at a position. No earlier operator completes there. |
| QueryAnalyzer.PriceMatchAt | backend/controllers/ChatBotController.js:92-93 | A match has a non-empty digit capture. |
| QueryAnalyzer.PricePosition | backend/controllers/ChatBotController.js:93 | This is the leftmost position where the price pattern matches. It fails at every earlier position. |
| QueryAnalyzer.PriceSearch | backend/controllers/ChatBotController.js:92-94 | The amount capture of a match is a non-empty digit string. |
| QueryAnalyzer.Multiplier | backend/controllers/ChatBotController.js:98-100 | The factor of the lower-cased unit: 1,000,000 for triệu and m, 1,000 for nghìn and k, 1 otherwise. `UnitScale` proves the factors. |
| QueryAnalyzer.ExtractPrice | backend/controllers/ChatBotController.js:91-106 | The price range: null without a match, otherwise the operator as matched and parseInt of the digits times the unit factor. `PriceAmountScaling` and `PriceIsLeftmost` prove this. |
| AnalyzerProperties.ProductTypeNamesDistinct | backend/controllers/ChatBotController.js:58-65 | The six lexicon keys are distinct. |
| AnalyzerProperties.DetectTypeIsFirstHit | backend/controllers/ChatBotController.js:67-72 | The type is row k's name if and only if row k has a keyword in the lower-cased query and no earlier row has one. |
| AnalyzerProperties.DetectTypeNone | backend/controllers/ChatBotController.js:48-72 | The type stays null if and only if no keyword of any row is a substring. Otherwise it is one of the six keys. |
| AnalyzerProperties.TabletPhraseMissesPhoneRow | backend/controllers/ChatBotController.js:59 | No phone keyword occurs in "máy tính bảng". |
| AnalyzerProperties.TabletPhraseIsLaptop | backend/controllers/ChatBotController.js:60-72 | "máy tính bảng" gives 'laptop', via 'máy tính', because the laptop row comes before the tablet row. |
| AnalyzerProperties.HeadphoneIsPhone | backend/controllers/ChatBotController.js:59-72 | "headphone" gives 'điện thoại', via 'phone'. |
| AnalyzerProperties.SpecMatchIsFirstAlternative | backend/controllers/ChatBotController.js:84-85 | An attempt at a position fails if and only if no keyword there is followed by optional whitespace and a digit. Otherwise its capture is the one after the first such keyword. |
| AnalyzerProperties.SpecMatchCapture | backend/controllers/ChatBotController.js:84-87 | A successful attempt at a position captures exactly the digit run that follows the first keyword completing there and the whitespace after it. The capture is non-empty and is not followed by a digit. |
| AnalyzerProperties.SpecSearchIsLeftmost | backend/controllers/ChatBotController.js:85-86 | The pattern matches nowhere if and only if every attempt fails. Otherwise the match is at a position before which every attempt fails. |
| AnalyzerProperties.NumberAfterIsDigitRun | backend/controllers/ChatBotController.js:84 | `\s*(\d+)` skips exactly the whitespace run. Its capture occurs right after it and is not followed by a digit. |
| AnalyzerProperties.SpecCaptureIsDigitRun | backend/controllers/ChatBotController.js:84-87 | The search captures at the leftmost position where an attempt succeeds, every attempt before it failing. There the capture is the whole digit run after the keyword and its whitespace. |
| AnalyzerProperties.SpecCaptureIsMaximalRun | backend/controllers/ChatBotController.js:84-87 | When no keyword ends in a digit, the capture is a digit run of the query with no digit just before it and none just after it. |
| AnalyzerProperties.SpecKeywordsEndWithoutDigit | backend/controllers/ChatBotController.js:75-81 | Every keyword of the five specification groups is non-empty and ends in a non-digit. |
| AnalyzerProperties.SpecValueIsMaximalRun | backend/controllers/ChatBotController.js:83-89 | A value stored under a group name in the record is a maximal digit run of the query: no digit precedes or follows it. |
| AnalyzerProperties.DistinctPrefix | backend/controllers/ChatBotController.js:75-81 | A prefix of a table with distinct names has distinct names. |
| AnalyzerProperties.SpecificationsLookup | backend/controllers/ChatBotController.js:83-89 | With distinct group names, a group's name is a key if and only if its pattern matches. The value stored is that match's capture. |
| AnalyzerProperties.SpecGroupNamesDistinct | backend/controllers/ChatBotController.js:75-81 | The five group names are distinct. |
| AnalyzerProperties.SpecificationsOfQuery | backend/controllers/ChatBotController.js:83-89 | The same lookup, for the record of a query and the controller's groups. |
| AnalyzerProperties.RamEight | backend/controllers/ChatBotController.js:76-87 | "ram 8gb" gives ram '8'. |
| AnalyzerProperties.UnitsAreLowerCase | backend/controllers/ChatBotController.js:92 | The unit alternatives are lower case. |
| AnalyzerProperties.OperatorsAreLowerCase | backend/controllers/ChatBotController.js:92 | The operator alternatives are lower case. |
| AnalyzerProperties.MatchedTextLowers | backend/controllers/ChatBotController.js:92-96 | Text matched case-insensitively against a lower-case table lowers to a table word. |
| AnalyzerProperties.AmountAfterIsDigitRun | backend/controllers/ChatBotController.js:92 | `\s*(\d+)\s*(unit)` fails exactly when there are no digits after the whitespace or no unit after them. A success captures exactly the maximal digit run after the whitespace. |
| AnalyzerProperties.AmountUnitLowers | backend/controllers/ChatBotController.js:92-96 | The lower-cased unit capture is a unit word. |
| AnalyzerProperties.OperatorLowers | backend/controllers/ChatBotController.js:92-103 | The lower-cased operator capture is an operator word. |
| AnalyzerProperties.UnitLowers | backend/controllers/ChatBotController.js:92-96 | The lower-cased unit capture of a match is a unit word. |
| AnalyzerProperties.UnitScale | backend/controllers/ChatBotController.js:98-100 | triệu and m scale by 1,000,000; nghìn and k by 1,000. |
| AnalyzerProperties.PriceAmountScaling | backend/controllers/ChatBotController.js:94-105 | For any match, the amount is n × 1,000,000 for triệu/m and n × 1,000 for nghìn/k, with the unit compared lower-cased. The operator is the matched text, in the user's casing. |
| AnalyzerProperties.PriceIsLeftmost | backend/controllers/ChatBotController.js:92-103 | There is no price range if and only if no operator is followed by an amount anywhere. Otherwise the operator is the text of an operator followed by an amount at a position before which none is. |
| AnalyzerProperties.LeftmostPosition | backend/controllers/ChatBotController.js:92-93 | For any operator and unit tables, the search stops past the end exactly when no operator is followed by an amount. Otherwise it stops at the first such position and captures the operator found there. |
| AnalyzerProperties.HeadsDiffer | backend/controllers/ChatBotController.js:92 | Words whose first n letters differ pairwise form a prefix-free table. |
| AnalyzerProperties.UnitTableShape | backend/controllers/ChatBotController.js:92 | No unit word is a prefix of another, and none starts with whitespace. |
| AnalyzerProperties.OperatorTableShape | backend/controllers/ChatBotController.js:92 | No operator word is a prefix of another. |
| AnalyzerProperties.OnlyAlternative | backend/controllers/ChatBotController.js:92 | In a prefix-free lower-case table, at most one word occurs at a position, ignoring case. |
| AnalyzerProperties.LowerImpliesMatch | backend/controllers/ChatBotController.js:92 | Text whose lower-case form is a lower-case word matches it under the 'i' flag. |
| AnalyzerProperties.UnitOfPhrase | backend/controllers/ChatBotController.js:92 | The unit alternative chosen at a position is the word the text there lowers to. |
| AnalyzerProperties.PhraseRuns | backend/controllers/ChatBotController.js:92 | In " digits " followed by a non-space, each `\s*` takes one space and `\d+` takes exactly the digits. |
| AnalyzerProperties.AmountOfPhrase | backend/controllers/ChatBotController.js:92 | " digits unit" is matched by `\s*(\d+)\s*(unit)` with exactly those captures. |
| AnalyzerProperties.OperatorOfPhrase | backend/controllers/ChatBotController.js:92 | Where an operator word, typed in any ASCII casing, is followed by an amount, the operator alternative chosen at that position is that word. |
| AnalyzerProperties.PriceAmountOfPhrase | backend/controllers/ChatBotController.js:92 | " digits unit" with a unit word in any ASCII casing yields exactly the amount (digits, unit). |
| AnalyzerProperties.PhraseAttempt | backend/controllers/ChatBotController.js:92 | The attempt at a position holding operator, space, digits, space and unit captures exactly those three pieces. |
| AnalyzerProperties.FirstSuccessfulAttempt | backend/controllers/ChatBotController.js:93 | If every attempt before i fails and the one at i succeeds, query.match returns the attempt at i. |
| AnalyzerProperties.PriceAt | backend/controllers/ChatBotController.js:92-93 | If every attempt before position i fails and operator, space, digits, space and unit sit at i, the match has exactly those captures. |
| AnalyzerProperties.PhraseMatch | backend/controllers/ChatBotController.js:92-93 | The same for the concatenated phrase, whatever follows it. |
| AnalyzerProperties.PricePhrase | backend/controllers/ChatBotController.js:92-105 | Such a phrase gives the operator as typed and the scaled amount. |
| AnalyzerProperties.ExampleWords | backend/controllers/ChatBotController.js:92-96 | The lower-case forms of "dưới", "Dưới", "từ", "triệu" and "k", and parseInt of "5" (5) and "500" (500). |
| AnalyzerProperties.UnderFiveMillion | backend/controllers/ChatBotController.js:92-105 | A query starting "dưới 5 triệu" gives {operator 'dưới', amount 5,000,000}, whatever follows. |
| AnalyzerProperties.CapitalisedOperatorKept | backend/controllers/ChatBotController.js:92-103 | A query starting "Dưới 5 triệu" gives operator 'Dưới', with its capital kept, and amount 5,000,000. |
| AnalyzerProperties.FromFiveHundredK | backend/controllers/ChatBotController.js:92-99 | A query starting "từ 500 k" gives {operator 'từ', amount 500,000}. |
| AnalyzerProperties.OperatorHeads | backend/controllers/ChatBotController.js:92 | Each operator word has at least two letters, and its first two form one of five letter pairs. |
| AnalyzerProperties.NoHeadNoMatch | backend/controllers/ChatBotController.js:92 | An attempt fails at a position whose next two characters are not the start of any operator, in any ASCII casing. |
| AnalyzerProperties.NoMatchInStretch | backend/controllers/ChatBotController.js:92-93 | Every attempt fails inside a stretch of the query without any of the letters d, D, t, T, k, K and đ. |
| AnalyzerProperties.PhonePrefixHasNoPrice | backend/controllers/ChatBotController.js:92-93 | In a query starting "điện thoại ram 8gb dưới 5 triệu", every attempt before "dưới" fails, although "điện" and "thoại" begin with operator letters. |
| AnalyzerProperties.PhoneUnderFiveMillion | backend/controllers/ChatBotController.js:92-105 | Such a query gives {operator 'dưới', amount 5,000,000}. |
| AnalyzerProperties.PhoneQueryHead | backend/controllers/ChatBotController.js:46-109 | Such a query holds "điện thoại" at 0 and "ram", a space, '8' and 'g' from 11. |
| AnalyzerProperties.NoKeywordHeadAt | backend/controllers/ChatBotController.js:84-85 | An attempt of a specification pattern fails where the character does not lower-case to the first letter of any alternative. |
| AnalyzerProperties.PhoneRamAttempts | backend/controllers/ChatBotController.js:84-85 | In such a query the RAM pattern fails at positions 0 to 10 and captures '8' at 11. |
| AnalyzerProperties.PhoneRamEight | backend/controllers/ChatBotController.js:84-87 | query.match of the RAM pattern on such a query captures '8'. |
| AnalyzerProperties.PhoneTypeDetected | backend/controllers/ChatBotController.js:55-72 | Such a query gives the type 'điện thoại'. |
| AnalyzerProperties.PhoneQueryAnalysis | backend/controllers/ChatBotController.js:46-109 | A query starting "điện thoại ram 8gb dưới 5 triệu" gives type 'điện thoại', ram '8' and {operator 'dưới', amount 5,000,000}, whatever follows. |
| AnalyzerProperties.NoNumberAfter | backend/controllers/ChatBotController.js:84-92 | Without digits, neither `\s*(\d+)` nor the amount part completes anywhere. |
| AnalyzerProperties.NoDigitsNoSpec | backend/controllers/ChatBotController.js:84-86 | Without digits, no specification pattern matches. |
| AnalyzerProperties.NoSpecificationsWithoutDigits | backend/controllers/ChatBotController.js:83-89 | Without digits, the specifications stay empty. |
| AnalyzerProperties.NoDigitsNoPrice | backend/controllers/ChatBotController.js:92-94 | Without digits, the price range stays null. |
| AnalyzerProperties.NoDigitsNoNumbers | backend/controllers/ChatBotController.js:83-106 | A query without digits has empty specifications and no price range. |
| AnalyzerProperties.GreetingMissesPhones | backend/controllers/ChatBotController.js:59 | No phone keyword is in "xin chào". |
| AnalyzerProperties.GreetingMissesComputers | backend/controllers/ChatBotController.js:60-61 | No laptop or tablet keyword is in "xin chào". |
| AnalyzerProperties.GreetingMissesHeadphones | backend/controllers/ChatBotController.js:62 | No headphone keyword is in "xin chào". |
| AnalyzerProperties.GreetingMissesSpeakersAndWatches | backend/controllers/ChatBotController.js:63-64 | No speaker or watch keyword is in "xin chào". |
| AnalyzerProperties.GreetingMissesLexicon | backend/controllers/ChatBotController.js:67-72 | "xin chào" has no product type. |
| AnalyzerProperties.GreetingIsEmpty | backend/controllers/ChatBotController.js:46-109 | "xin chào" leaves every field of the record at its default. |
| CatalogMatcher.WithScore | backend/controllers/ChatBotController.js:142-158 | `map` to `{...p, similarity}` keeps the length and the products, and sets every similarity to the tier's score. |
| CatalogMatcher.EffectivePrice | backend/controllers/ChatBotController.js:130 | prices['250'] when present and non-zero, else price when present and non-zero, else 0. `EffectivePriceChoice` proves the choice. |
| CatalogMatcher.MatchesType | backend/controllers/ChatBotController.js:120-123 | The tier 1 type test: the lower-cased name or category contains the type, which is not lower-cased. |
| CatalogMatcher.MatchesPrice | backend/controllers/ChatBotController.js:129-137 | The price filter: below for 'dưới', above for 'trên', strictly within 20% of the amount for 'khoảng', and true for any other operator. `AboutIsStrict`, `MissingPriceQuirk` and `UnknownOperatorKeepsAll` prove its edge cases. |
| CatalogMatcher.ByType | backend/controllers/ChatBotController.js:119-124 | With a non-empty type, the products that pass the type test, in catalog order; otherwise all of them. |
| CatalogMatcher.ByPrice | backend/controllers/ChatBotController.js:127-138 | With a price range, the products that pass the price filter, in order; otherwise all of them. |
| CatalogMatcher.Exact | backend/controllers/ChatBotController.js:119-138 | The type filter then the price filter. `ExactIsSubsequence` and `ExactIsOneFilter` prove what survives. |
| CatalogMatcher.SearchTerm | backend/controllers/ChatBotController.js:146-148 | The fallback term: the type when it is non-empty, else 'sản phẩm', lower-cased. |
| CatalogMatcher.MatchesKeyword | backend/controllers/ChatBotController.js:147-151 | The lower-cased name, category or description contains the term. |
| CatalogMatcher.KeywordMatches | backend/controllers/ChatBotController.js:147-151 | The catalog entries that contain the fallback term, in order. `TierTwo` proves how tier 2 answers with them. |
| CatalogMatcher.LooksSimilar | backend/controllers/ChatBotController.js:240-243 | The lower-cased name or category contains the lower-cased type, or the lower-cased description contains the lower-cased brand. |
| CatalogMatcher.SimilarHits | backend/controllers/ChatBotController.js:240-243 | The catalog entries that look similar, in order. `SimilarIsFirstTen` and `SimilarEmpty` prove how the image answer uses them. |
| CatalogMatcher.SearchProductsByCriteria | backend/controllers/ChatBotController.js:112-158 | The answer is empty if and only if the catalog is. All its entries share one score, which is 0.8, 0.7 or 0.5. Its products are a subsequence of the catalog. |
| CatalogMatcher.ExactIsSubsequence | backend/controllers/ChatBotController.js:116-138 | What survives tier 1's filters is a subsequence of the catalog. |
| CatalogMatcher.SimilarProducts | backend/controllers/ChatBotController.js:240-244 | At most ten products, each scored 0.8 and each passing the image filter, in catalog order. |
| MatcherProperties.ExactIsOneFilter | backend/controllers/ChatBotController.js:119-138 | The type filter then the price filter, each only when its criterion is set, is one filter by both criteria over the catalog. |
| MatcherProperties.TierOne | backend/controllers/ChatBotController.js:119-143 | When some product passes, the answer is the order-preserving subsequence of the catalog that passes both filters, at 0.8. |
| MatcherProperties.TierTwo | backend/controllers/ChatBotController.js:141-155 | Otherwise, when some product matches the keyword, the answer is the keyword matches of the whole catalog at 0.7. Every catalog product matching the keyword is in it, including ones the price filter rejected. |
| MatcherProperties.DefaultOnlyWithoutTypeMatch | backend/controllers/ChatBotController.js:119-151 | With a lower-case type, an empty keyword tier means no product has the type. |
| MatcherProperties.TierThree | backend/controllers/ChatBotController.js:153-158 | Otherwise the answer is the first min(10, catalog size) products at 0.5. |
| MatcherProperties.ScoreIdentifiesTier | backend/controllers/ChatBotController.js:141-158 | The score of the answer is 0.8, 0.7 or 0.5 exactly when tier 1, tier 2 or tier 3 answered. The tiers are mutually exclusive. |
| MatcherProperties.UnconstrainedIsWholeCatalog | backend/controllers/ChatBotController.js:119-142 | With neither type nor price range, the answer is the entire catalog, untruncated, at 0.8. |
| MatcherProperties.GreetingReturnsCatalog | backend/controllers/ChatBotController.js:112-143 | "xin chào" finds no criteria, so a non-empty catalog comes back whole at 0.8. |
| MatcherProperties.EffectivePriceChoice | backend/controllers/ChatBotController.js:130 | The price is non-zero if and only if prices['250'] or price is present and non-zero. It is prices['250'] when that is present and non-zero; otherwise it is price when that is present and non-zero; otherwise it is 0. |
| MatcherProperties.MissingPriceQuirk | backend/controllers/ChatBotController.js:130-133 | A product with no price passes every 'dưới' bound above 0 and fails every 'trên' bound from 0 up. |
| MatcherProperties.AboutIsStrict | backend/controllers/ChatBotController.js:134 | 'khoảng' 10,000,000 rejects a price exactly 20% away (8,000,000) and keeps 8,000,001. |
| MatcherProperties.UnknownOperatorKeepsAll | backend/controllers/ChatBotController.js:131-135 | Any operator other than exactly 'dưới', 'trên' or 'khoảng' keeps every product. |
| MatcherProperties.CapitalisedOperatorFiltersNothing | backend/controllers/ChatBotController.js:127-137 | A query starting "Dưới 5 triệu" is read as a range, but its capitalised operator makes the price filter keep every product. |
| MatcherProperties.UnderFiveMillionFilter | backend/controllers/ChatBotController.js:127-137 | A query starting "dưới 5 triệu" keeps exactly the products whose price is below 5,000,000, in catalog order. |
| MatcherProperties.SimilarIsFirstTen | backend/controllers/ChatBotController.js:240-244 | The image answer is the first ten matching products, in catalog order. All of them are returned when there are at most ten. |
| MatcherProperties.SimilarCompleteWhenFew | backend/controllers/ChatBotController.js:240-244 | With at most ten matches, every matching catalog product is in the answer. |
| MatcherProperties.SimilarEmpty | backend/controllers/ChatBotController.js:240-244 | There is no fallback: the answer is empty if and only if no product matches. |
| MatcherProperties.EmptyBrandMatchesDescribed | backend/controllers/ChatBotController.js:243 | The brand is tested against the description only. An empty brand is contained in every description. |
| NaturalQuery.ProcessNaturalLanguageQuery | backend/controllers/ChatBotController.js:17-38 | A missing or empty query gets the 'Thiếu câu hỏi' error, and only such a query does. Otherwise the reply carries the analysis `Analyze` gives, the generated text or the fixed apology, and exactly the first ten entries (or all, if fewer) of `SearchProductsByCriteria` on that analysis. So at most ten products, with one score, in catalog order, and none only when the catalog is empty. |
| NaturalQuery.GreetingShowsFirstTen | backend/controllers/ChatBotController.js:17-38 | For "xin chào", the reply shows the first ten catalog products at 0.8. |
| NaturalQuery.UnscoredPrefix | backend/controllers/ChatBotController.js:36 | The products of the first n scored entries are the first n products. |
| NaturalQuery.WithScorePrefix | backend/controllers/ChatBotController.js:36 | Scoring and then taking the first n entries is taking the first n products and then scoring them. |
| UploadRules.LastIndexOf | backend/routes/ChatBotRoutes.js:15-26 | The position found holds the character, and no later position does. None means the character is absent. |
| UploadRules.TrimSlashes | backend/routes/ChatBotRoutes.js:15-26 | The result is the path with its trailing '/' characters removed: a prefix not ending in '/', followed in the path only by '/'. A path that does not end in '/' is unchanged. |
| UploadRules.BaseName | backend/routes/ChatBotRoutes.js:15-26 | The result is the suffix of the path after its last '/': it holds no '/', and the character before it is '/'. A path without '/' is its own base name. |
| UploadRules.ExtName | backend/routes/ChatBotRoutes.js:15-26 | path.extname is empty, or a '.' followed by text without '.' or '/'. |
| UploadRules.LastIndexOfIs | backend/routes/ChatBotRoutes.js:15-26 | The last occurrence is found. |
| UploadRules.ExtNameOf | backend/routes/ChatBotRoutes.js:15-26 | stem + "." + e has extension "." + e, for a stem that is not empty, not "." and has no '/'. |
| UploadRules.NoDotNoExtension | backend/routes/ChatBotRoutes.js:26 | A name without '.' has the empty extension. |
| UploadRules.FileFilter | backend/routes/ChatBotRoutes.js:24-34 | Accepted if and only if the lower-cased extension contains an allowed word and the MIME type contains one. A rejection carries the fixed message. An accepted name has an extension. |
| UploadRules.ExtensionAllowed | backend/routes/ChatBotRoutes.js:26 | The lower-cased extension contains jpeg, jpg, png, gif or webp. |
| UploadRules.MimeAllowed | backend/routes/ChatBotRoutes.js:27 | The MIME type, as it is, contains jpeg, jpg, png, gif or webp. |
| UploadRules.WithinSizeLimit | backend/routes/ChatBotRoutes.js:22 | The size is at most the 5 MiB limit. `SizeLimitIsFiveMebibytes` gives the number. |
| UploadRules.StoredFilename | backend/routes/ChatBotRoutes.js:15 | The stored name: 'image-', the unique suffix, then the upload's extension. `StoredNameKeepsExtension` proves the extension is kept. |
| UploadRules.SizeLimitIsFiveMebibytes | backend/routes/ChatBotRoutes.js:22 | The limit is exactly 5,242,880 bytes. |
| UploadRules.StemIsPlain | backend/routes/ChatBotRoutes.js:14-15 | "image-" + suffix has no '.' or '/' when the suffix has none. |
| UploadRules.StemThenExtension | backend/routes/ChatBotRoutes.js:15-26 | A plain stem followed by a well-formed extension has exactly that extension. |
| UploadRules.StoredNameKeepsExtension | backend/routes/ChatBotRoutes.js:14-26 | The stored name "image-" + suffix + extname keeps the upload's extension. So it passes the extension test exactly when the upload did. |
| UploadRules.NoExtensionRejected | backend/routes/ChatBotRoutes.js:26-32 | A file name with no extension is always rejected. |
| UploadRules.DotFileRejected | backend/routes/ChatBotRoutes.js:26-32 | A dot file "." + e, with no '.' or '/' in e, has no extension, and neither has "..". Both are rejected whatever their MIME type. |
| UploadRules.LoweredDotHolds | backend/routes/ChatBotRoutes.js:26 | Lower-casing "." + e keeps an allowed word found in the lower-cased e. |
| UploadRules.LoweredExtensionHolds | backend/routes/ChatBotRoutes.js:26 | The lower-cased extension of stem + "." + e contains what the lower-cased e does. |
| UploadRules.UpperCaseExtensionPasses | backend/routes/ChatBotRoutes.js:26-29 | For any plain stem, stem + ".PNG" passes the extension test. |
| UploadRules.ImagePngAllowed | backend/routes/ChatBotRoutes.js:25-27 | "image/png" passes the MIME test, which is tested as it is. |
| UploadRules.UpperCaseExtensionAccepted | backend/routes/ChatBotRoutes.js:26-30 | "photo" + "." + "PNG" sent as image/png is accepted, because the extension is lower-cased. |
| UploadRules.UpperCaseMimeRejected | backend/routes/ChatBotRoutes.js:27-32 | "IMAGE/PNG" is rejected, because the MIME type is tested as it is. |
| UploadRules.LongerExtensionAccepted | backend/routes/ChatBotRoutes.js:25-26 | ".jpgx" passes the extension test, which is a substring test. |
| UploadRules.NonImageMimeAccepted | backend/routes/ChatBotRoutes.js:25-27 | "application/x-png" passes the MIME test. |
| UploadRules.UnanchoredTestAccepts | backend/routes/ChatBotRoutes.js:25-30 | "a.jpgx" sent as application/x-png is accepted. |

## Left out

- **Case folding.** `toLowerCase` and the regular-expression `i` flag are modelled for ASCII letters only. Other characters are left unchanged, including Vietnamese capitals such as Đ or Ư. All keywords, operators and units of the tables are already lower case. The strings are sequences of code points, not UTF-16 units. So the model answers differently on capitals outside ASCII: "Điện thoại Samsung" detects no type in the model, while the program lower-cases Đ and detects 'điện thoại'; likewise "ĐẾN 5 triệu" has no price in the model but one in the program.
- CatalogMatcher.MatchesPrice: states `khoảng` as 5·|price − amount| < amount, over integers. The controller compares against the float `amount * 0.2`, and its rounding for very large amounts is not modelled.
- **parseInt and the unit scaling.** Both are modelled on unbounded integers, and `AnalyzerProperties.PriceAmountScaling` states the exact product n·10^6 or n·10^3. The program works on JavaScript numbers. A digit string beyond 2^53 already loses precision in `parseInt`. The scaled amount `amount *= 1000000` (ChatBotController.js:98-100) leaves the safe-integer range much sooner: with "triệu" it exceeds 2^53 from n ≥ 9,007,199,255 (ten digits). It stays exact while n·15625 < 2^53, that is for n below about 5.76·10^11. A twelve-digit amount such as "dưới 999999999999 triệu" makes the program store a rounded float where the model has the exact n·10^6.
- **Non-numeric prices.** Prices are integers. A non-numeric `prices['250']` or `price` (a string, NaN) is not modelled. Truthiness is "present and not zero".
- **The catch returning [] (ChatBotController.js:160-163).** Every product has a name, so the exception it guards against cannot happen in the model.
- **Non-string type or brand.** In the image search, a null or non-string `productType`/`brand` would throw. The model takes both as strings.
- **Non-string query.** A non-string query would throw in `toLowerCase`. The model takes an optional string, where None stands for an absent or falsy value.
- **generateNaturalResponse.** The language-model call, the prompt text and the locale-dependent price formatting are left out. The generated text is a parameter, and its absence gives the fixed apology. As written, the static method reads `this.model`, which only the constructor sets, so in practice the apology is always returned.
- **searchByImage as routed.** The route passes `searchByImage` to `router.post` without binding it (backend/routes/ChatBotRoutes.js:41). Its first use of `this.model` (ChatBotController.js:225) then throws, and the route answers 500 before the filter runs. The model gives the filter alone, as the method would run if it were bound to an instance created with `new ChatBotController()`.
- **I/O and plumbing.** This covers the HTTP request and response plumbing, status codes, multer's storage and destination, file reading and deletion, base64 encoding and `JSON.parse` of the vision model's answer. The vision-model call of `searchByImage` is also left out: its parsed answer is the `ImageAnalysis` parameter.
- UploadRules.StoredFilename: `Date.now()` and `Math.random()` are left out: the unique suffix is a parameter.
- UploadRules.WithinSizeLimit: The size limit is the constant and the comparison. How multer aborts an oversized stream is not modelled.
- **path.extname.** It is modelled for POSIX paths. Windows separators are not.
- **Not modelled:** the front-end component, the unused word2vec import, and the database models.

## Notes on the matcher

- **Tier 1 type filter.** It compares the detected type as it is, not lower-cased. This matters only for a type that is not lower case; every lexicon key is lower case.
- **Tier 2.** It searches the whole catalog again and does not re-apply the price filter. So a range that rejects every product of the right type still returns those products, at 0.7.
