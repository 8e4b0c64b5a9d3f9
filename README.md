# Retail-Arb-Scraper in Dafny

A Dafny model of the deterministic core of Retail-Arb-Scraper. The system scrapes products from Walmart, Target and Walgreens, finds the matching Amazon listing for each one, and decides whether the product is worth reselling. The model covers:

- **The cross-retailer title matcher** (`Match`, from `scrapers/match.js`):
  - text normalisation and token sets;
  - token and bigram Jaccard similarity, blended 0.7/0.3;
  - keyword classification into six facets;
  - the type-match penalty factor;
  - the price-plausibility score;
  - `pickBestMatch`, a strict-greater running maximum over the candidates.
- **The bounded TTL cache** (`Cache`, from `scrapers/cache.js`). It is a class with lazy expiry on `get` and oldest-first eviction on `set`, over an insertion-ordered map.
- **The parse helpers** (`Parse`, from `scrapers/parse.js`): `safeText`, `safeNumber`, `normalizeRetailProduct`, `normalizeAmazonResult`, `dedupeBy`, and the JSON-tree walk `collectByPredicate`.
- **The shared final merge** of the three retailer adapters (`Merge`): dedupe by `url || id`, keep items with a title and a positive price, truncate.
- **The Amazon text parsers** (`Amazon`, from `scrapers/retailers/amazon.js`): prices, compact numbers such as "1.2k", rating labels, image URLs and block-page detection.
- **The routing layer** (`Retailers`, from `scrapers/retailers/index.js`): URL detection, retailer inference, `scrapeRetailer` and `lookupAmazon`.
- **The listing analytics and recommendation rules**:
  - `AmazonAnalyzer`, from `amazon-analyzer.js`;
  - `LlmAnalyzer`, from `llm-analyzer.js`;
  - `PyAnalyzer`, the Python fallback in `scrapers/analyzer.py`.
- **The three retailer adapters** (`Target`, `Walgreens`, `Walmart`): URL normalisation, field precedence when an API or page-data record becomes a product, the Target Jina link collection and TCIN dedupe, the Walmart item-stack extraction, and each adapter's final choice of results.

Supporting modules:

| Module | What it holds |
|---|---|
| `Wrappers` | `Option` and `Result` |
| `Seqs` | filtering, first-per-key dedupe, truncation, pre-order walks |
| `Strings` | ASCII case mapping, trimming, substring search, decimal text |
| `JsValues` | JavaScript values with truthiness, `||`, `??`, property access, and object spread |

Modelling conventions:

- **Numbers.** JavaScript and Python numbers are reals. Rounding (`Math.round`, and rounding to one decimal) is written out.
- **Foreign functions.** `Math.log` and `SequenceMatcher.ratio` are function parameters.
- **Time.** The clock is an explicit `now` argument.
- **Network results.** Every network result is an input:
  - a fetched page's extracted data;
  - an API response;
  - an LLM reply.
- **Throws.** A JavaScript expression that throws a TypeError is modelled as `None`. Examples: `.startsWith` on a truthy non-string, and `.item` on a null array element.

## Model

| member | source | states |
|---|---|---|
| Match.MaskChar | scrapers/match.js:4 | every character becomes `[a-z0-9]` or white space |
| Match.CollapseSpaces | scrapers/match.js:5 | runs of white space become one plain space; the result is no longer than the input, empty iff the input is, and has no doubled spaces |
| Match.CollapseSpacesFixed | scrapers/match.js:5 | text that is already single-spaced word characters is unchanged |
| Match.NormalizeText | scrapers/match.js:1-7 | null/undefined gives ''; the result has only `[a-z0-9 ]`, no doubled spaces, no leading or trailing space |
| Match.TrimKeeps | scrapers/match.js:6 | trimming keeps only `[a-z0-9 ]`, keeps single spacing and leaves no space at either end |
| Match.NormalizeTextIdempotent | scrapers/match.js:1-7 | normalising a normalised text changes nothing |
| Match.Split | scrapers/match.js:85 | `split(' ')` gives at least one piece, none containing the separator |
| Match.SplitJoin | scrapers/match.js:85 | joining the pieces with the separator gives back the text |
| Match.TokenList | scrapers/match.js:82-88 | tokens in first-occurrence order are non-empty, never stopwords, and pairwise distinct |
| Match.TokenSetSize | scrapers/match.js:82-88 | the token set has exactly as many elements as the de-duplicated token list |
| Match.JaccardBounds | scrapers/match.js:90-100 | Jaccard lies in [0,1], is 0 when either set is empty, and 1 for equal non-empty sets |
| Match.JaccardSymmetric | scrapers/match.js:90-100 | Jaccard is symmetric |
| Match.JaccardFromSets | scrapers/match.js:111-119 | the counting loop returns the intersection-over-union ratio, within [0,1] |
| Match.JaccardSimilarity | scrapers/match.js:90-100 | the loop over token sets returns their Jaccard ratio, in [0,1], and 0 when either title has no tokens |
| Match.Bigrams | scrapers/match.js:105-107 | n tokens give n-1 adjacent pairs (none below two tokens) |
| Match.BigramSet | scrapers/match.js:102-109 | the loop builds the pairs of the de-duplicated tokens; the set is empty iff fewer than two distinct tokens |
| Match.PairUp | scrapers/match.js:105-107 | the loop adds exactly the adjacent pairs; empty iff fewer than two tokens |
| Match.TextSimilarity | scrapers/match.js:121-125 | the result is the 0.7/0.3 blend of token and bigram Jaccard, in [0,1] |
| Match.SimilarityBounds | scrapers/match.js:121-125 | text similarity lies in [0,1] |
| Match.SimilaritySymmetric | scrapers/match.js:121-125 | text similarity is symmetric |
| Match.SimilaritySelf | scrapers/match.js:102-125 | self-similarity is 1 with two or more distinct tokens, 0.7 with exactly one, 0 with none |
| Match.ClassifyTitle | scrapers/match.js:131-154 | isBundle iff the normalised text contains "bundle"; bundle plus a platform keyword implies console; a game is none of console, accessory, gift card, subscription; isAccessory iff an accessory keyword occurs as a substring |
| Match.StandardIsAccessory | scrapers/match.js:127-137 | a title containing "standard" is classified as an accessory, because "stand" is a substring |
| Match.StandardHasStand | scrapers/match.js:127-129 | "standard" in a text makes `hasKeyword` true for the accessory list |
| Match.HasKeywordAt | scrapers/match.js:127-129 | one keyword occurring as a substring makes `hasKeyword` true |
| Match.TypeMatchFactor | scrapers/match.js:156-181 | the method's factor equals the product of all applicable penalties and bonuses, and lies in (0, 1.1] |
| Match.ApplyKindRules | scrapers/match.js:161-167 | the six kind rules multiply a positive factor by their penalties, never increasing it |
| Match.ApplyBundleRules | scrapers/match.js:169-170 | the two bundle rules multiply a positive factor by their penalties, never increasing it |
| Match.KindRulesBounds | scrapers/match.js:161-167 | the kind rules keep a positive factor positive and at most itself; a gift-card or subscription mismatch cuts it to at most 0.2 of itself |
| Match.BundleRulesBounds | scrapers/match.js:169-170 | the bundle rules keep a positive factor positive and at most itself |
| Match.TypeFactorBounds | scrapers/match.js:156-181 | the type factor is always in (0, 1.1] |
| Match.GiftCardOrSubscriptionPenalty | scrapers/match.js:161-162 | a gift-card or subscription target against a non-matching candidate gets a factor of at most 0.22 |
| Match.GameAgainstBundle | scrapers/match.js:164-178 | a plain game target against a console bundle gets factor 0.15, every rule applying with no short-circuit |
| Match.SameGameFactor | scrapers/match.js:164-178 | a plain game against a title of the same classification gets the 1.1 bonus |
| Match.PriceScore | scrapers/match.js:183-195 | 0.5 when either price is not a number or is not positive; -1 when the ratio is outside [minRatio,maxRatio]; otherwise a value in [0,1] |
| Match.ConsoleBundleSkipped | tests/match.test.js:4-26 | with default options, a target priced 69.99 skips a candidate priced 499.99: its price score is -1 and strict pricing drops it |
| Match.PriceScoreEqualPrices | scrapers/match.js:187-194 | equal prices score 1 whenever the band admits ratio 1 (log 1 = 0) |
| Match.TargetObject | scrapers/match.js:198 | a string target becomes `{title}`; a truthy object is used as is; a falsy target becomes `{}` |
| Match.TitleText | scrapers/match.js:1-3 | `normalizeText` reads a string title as itself and a falsy one as ''; it throws (no `toLowerCase`) exactly on a truthy non-string |
| Match.Context | scrapers/match.js:198-206 | the target price is a number or null; strictPrice defaults to "target price is a number"; the ratio band defaults to 0.4 and 3.0; a string target has that title and no price |
| Match.ContextTitleThrows | scrapers/match.js:198-199 | the target's title cannot be normalised exactly when it is a truthy non-string |
| Match.CandidateTitleThrows | scrapers/match.js:211 | `candidate.title \|\| ''` throws exactly for a null or undefined candidate or a truthy non-string title |
| Match.ThrowsExactly | scrapers/match.js:197-227 | pickBestMatch's loop throws iff there is a candidate and the target title is a truthy non-string, or some candidate is nullish or has a truthy non-string title |
| Match.RankingAt | scrapers/match.js:210-220 | entry `j` of the ranking says whether candidate `j` takes part and gives its blended score times the type factor |
| Match.RanksAt | scrapers/match.js:210 | the candidates are ranked one by one, in order: entry `j` is the rank of candidate `j` |
| Match.WinnerUnique | scrapers/match.js:221-224 | at most one index can be the winner, since ties keep the earliest |
| Match.WinnerExists | scrapers/match.js:208-225 | a winner exists iff some considered candidate scores above minScore |
| Match.PickBestMatch | scrapers/match.js:197-227 | throws (a TypeError) iff scoring some candidate throws; otherwise null iff no considered candidate scores above minScore; otherwise the winner's fields plus `score`, where the winner scores above minScore, is at least every considered score, and is strictly above every earlier one |
| Match.ScanAll | scrapers/match.js:208-226 | the loop under the settled context: it throws iff some candidate's scoring throws; otherwise null iff no considered candidate beats minScore, else the unique winner's fields plus `score` |
| Match.ScanCandidate | scrapers/match.js:210-225 | one turn of the loop: it throws iff scoring the candidate throws; otherwise a considered candidate scoring above the best so far becomes the best, as its fields plus `score`; otherwise best and bestScore are unchanged; either way the running-maximum invariant moves on by one candidate |
| Match.ScanSkips | scrapers/match.js:214-216 | a skipped candidate, or one not above the best score, keeps the running-maximum invariant with nothing changed |
| Match.ScanTakes | scrapers/match.js:221-224 | a considered candidate above the best score becomes the unique winner so far |
| Match.ScoreCandidate | scrapers/match.js:211-220 | scoring throws iff a title cannot be read or normalised; otherwise a candidate is skipped exactly when strict pricing meets the -1 sentinel; otherwise its score is the blended score |
| Match.WinnerInBand | scrapers/match.js:214-222 | under strict pricing the winner never has price score -1, and its score is above minScore |
| Cache.EmptyMap | scrapers/cache.js:5 | a new `Map` is well formed and empty |
| Cache.RemoveKey | scrapers/cache.js:13-22 | deleting a key removes exactly that key from the insertion order and keeps the rest distinct and in order |
| Cache.RemoveHead | scrapers/cache.js:21-22 | deleting the first-inserted key leaves the rest of the order |
| Cache.MapDelete | scrapers/cache.js:13-22 | `Map.delete`: the key is gone, every other key keeps its entry, and the size drops by one if the key was present |
| Cache.MapSet | scrapers/cache.js:24 | `Map.set`: the key maps to the entry, others are unchanged; an existing key keeps its position and a new key is appended |
| Cache.TTLCache.constructor | scrapers/cache.js:2-6 | ttlMs defaults to five minutes and max to 200; the store starts empty |
| Cache.TTLCache.Get | scrapers/cache.js:8-17 | an absent key gives null and no change; an entry older than ttlMs is deleted and gives null; a live entry gives its value and no change |
| Cache.TTLCache.Set | scrapers/cache.js:19-25 | the new store is the old one with the oldest key evicted when full, then the key written with the current time |
| Cache.TTLCache.Clear | scrapers/cache.js:27-29 | the store is empty |
| Cache.SetKeepsBound | scrapers/cache.js:20-24 | with max >= 1, a set keeps the size at most max |
| Cache.SetWithZeroMax | scrapers/cache.js:20-24 | with max <= 0, a set still leaves exactly one entry |
| Cache.SetEvictsOldest | scrapers/cache.js:20-24 | when full, the first-inserted key is evicted even if it is the key being set; all other keys keep their entries |
| Cache.SetBelowCapacity | scrapers/cache.js:20-24 | below capacity, every other key keeps its entry |
| Cache.ResetKeepsPosition | scrapers/cache.js:24 | re-setting an existing key refreshes value and timestamp but keeps its original position |
| Cache.SetThenGet | scrapers/cache.js:8-24 | right after set(k,v) at time t, the entry for k holds v and is not expired at t |
| Cache.SizeIsCount | scrapers/cache.js:20 | the size is the number of stored keys |
| Parse.SafeText | scrapers/parse.js:72-76 | null/undefined give ''; a string is trimmed; the result never starts or ends with white space |
| Parse.SafeTextIdempotent | scrapers/parse.js:72-76 | applying safeText to its own result changes nothing |
| Parse.SafeNumber | scrapers/parse.js:78-85 | null/undefined give null; a number is returned unchanged; any other input gives null or a value >= 0 |
| Parse.SafeNumberOfNumberText | scrapers/parse.js:81-84 | text made only of digits and dots is parsed as it stands |
| Parse.SafeNumberReadsDigits | scrapers/parse.js:81-84 | currency signs and other non-number characters before a whole number are ignored |
| Parse.Hex | scrapers/parse.js:102 | `Buffer.toString('hex')` produces only hex digits |
| Parse.HexBytes | scrapers/parse.js:102 | each byte becomes exactly two hex digits |
| Parse.Utf8 | scrapers/parse.js:102 | a character encodes to one to four bytes, an ASCII character to itself |
| Parse.HexRoundTrip | scrapers/parse.js:102 | for ASCII titles the hex id decodes back to the title and is twice its length |
| Parse.Default | scrapers/parse.js:95-97 | a destructuring default applies only to undefined |
| Parse.NormalizeRetailProduct | scrapers/parse.js:87-113 | price defaults to 0 and originalPrice to the price; clearance iff the flag is truthy or originalPrice > price; stock defaults to 'Unknown', upc to null; a falsy id becomes `<retailer>-<hex of title[0..32]>`; text fields pass through safeText |
| Parse.NoOriginalNoMarkdown | scrapers/parse.js:99-109 | without an original price there is no markdown: clearance only from the flag |
| Parse.NormalizeAmazonResult | scrapers/parse.js:115-135 | asin, title, url and image go through safeText: always trimmed, a string is its own trim and null or undefined is ''; price, rating, reviews and salesRank go through safeNumber: a number passes unchanged, null or undefined is null, and anything else is null or >= 0 |
| Parse.DedupeBy | scrapers/parse.js:137-147 | the loop with its `seen` set returns the first item per truthy key, in input order |
| Parse.DedupedProperties | scrapers/parse.js:137-147 | the result is an ordered subsequence of the input with truthy, pairwise distinct keys, covering every truthy key of the input |
| Parse.CollectByPredicate | scrapers/parse.js:61-70 | the result is the first `limit` nodes of the pre-order walk that satisfy the predicate |
| Parse.Walk | scrapers/parse.js:51-59 | walking one node appends its pre-order matches until the limit is reached |
| Parse.WalkAll | scrapers/parse.js:55 | walking array children appends their pre-order matches in order |
| Parse.WalkMembers | scrapers/parse.js:58 | walking object values appends their pre-order matches in order |
| Parse.CollectedProperties | scrapers/parse.js:61-70 | at most `limit` nodes, each satisfying the predicate, in walk order |
| Merge.FinalMergeProperties | scrapers/retailers/target.js:413-420 | the merge result is an ordered subsequence with listable items, truthy and distinct `url || id` keys, and at most `limit` items |
| Merge.NormalizedKeyTruthy | scrapers/parse.js:102 | every normalised product has a truthy `url || id` key, thanks to the fallback id |
| Merge.UnlistableFirstHidesDuplicate | scrapers/retailers/walmart.js:214-217 | dedupe runs before the filter, so an unlistable first copy hides a listable duplicate |
| Amazon.MatchRun | scrapers/retailers/amazon.js:20-33 | the regex search finds the leftmost run followed by the phrase, or none iff there is none |
| Amazon.Round | scrapers/retailers/amazon.js:25-27 | `Math.round`: the nearest integer, halves rounded up |
| Amazon.Digits | scrapers/retailers/amazon.js:10-11 | only the digits are kept |
| Amazon.ParsePrice | scrapers/retailers/amazon.js:8-15 | null iff the whole part has no digit; otherwise the value of "<whole digits>.<fraction digits or 00>" |
| Amazon.AmountParses | scrapers/retailers/amazon.js:13-14 | the assembled amount text parses to its decimal value |
| Amazon.PriceFromDollarsAndCents | scrapers/retailers/amazon.js:8-15 | "$D" with two-digit cents C gives D + C/100 |
| Amazon.Scaled | scrapers/retailers/amazon.js:24-27 | a 'k' suffix multiplies by 1000, 'm' by 1,000,000, anything else keeps the value |
| Amazon.ParseCompactNumber | scrapers/retailers/amazon.js:17-28 | falsy input gives null; any result is a non-negative whole number |
| Amazon.CompactValue | scrapers/retailers/amazon.js:19-27 | no digit-or-dot run gives null; otherwise the result is null iff `parseFloat` of the leftmost run fails, and else that value scaled by a following 'k' or 'm' and rounded half up; a result is a non-negative whole number |
| Amazon.NoRunNoNumber | scrapers/retailers/amazon.js:21 | without a digit-or-dot run the safeNumber fallback is null |
| Amazon.CompactThousands | scrapers/retailers/amazon.js:17-25 | "<n>k" parses to n*1000 |
| Amazon.CompactMillions | scrapers/retailers/amazon.js:17-26 | "<n>m" parses to n*1,000,000 |
| Amazon.CompactRounds | scrapers/retailers/amazon.js:17-27 | "<w>.<f>" without a suffix parses to w.f rounded half up |
| Amazon.CompactWhole | scrapers/retailers/amazon.js:17-27 | "<n>" parses to n |
| Amazon.CompactOfNumberText | scrapers/retailers/amazon.js:19-27 | a digit-and-dot text opening with a digit is read whole, unscaled and rounded |
| Amazon.CompactIgnoresCommas | scrapers/retailers/amazon.js:19 | commas are ignored |
| Amazon.ParseRatingReviews | scrapers/retailers/amazon.js:30-38 | an empty label gives both fields null; a rating exists only with a "<n> out of 5" match and is >= 0; reviews exist only with a "<n> review" match |
| Amazon.RatingFromLabel | scrapers/retailers/amazon.js:32-35 | "<w>.<f> out of 5…" gives rating w.f |
| Amazon.RatingReviewsGroups | scrapers/retailers/amazon.js:32-36 | the rating is safeNumber of the leftmost "<run> out of 5" group; the review count is parseCompactNumber of the leftmost "<run> review" group |
| Amazon.ReviewCountFromLabel | scrapers/retailers/amazon.js:33-36 | "<n> reviews" gives review count n |
| Amazon.NormalizeAmazonImage | scrapers/retailers/amazon.js:40-44 | empty gives ''; "//…" gains "https:"; anything else is unchanged |
| Amazon.NormalizeAmazonImageIdempotent | scrapers/retailers/amazon.js:40-44 | normalising twice changes nothing; no result is protocol-relative |
| Amazon.IsAmazonBlocked | scrapers/retailers/amazon.js:46-48 | false for null; true iff the lower-cased text contains captcha, robot check or enter the characters |
| Amazon.BlockedByMarker | scrapers/retailers/amazon.js:46-48 | a marker in any letter case anywhere in the page marks it blocked |
| Retailers.RetailerNamed | scrapers/retailers/index.js:7-27 | a registered handler has the requested name; no handler means no retailer has that name |
| Retailers.RetailerNamedRoundTrip | scrapers/retailers/index.js:7-11 | each retailer is found under its own name |
| Retailers.IsUrlNeedsScheme | scrapers/retailers/index.js:13-15 | null is not a URL; a URL has at least seven characters and starts with h..p |
| Retailers.IsUrlIgnoresCase | scrapers/retailers/index.js:14 | upper- or lower-casing the input does not change the answer |
| Retailers.IsUrlExtends | scrapers/retailers/index.js:14 | the test anchors only the start: anything may follow the scheme |
| Retailers.UpperCaseSchemeIsUrl | scrapers/retailers/index.js:14 | "HTTPS://…" is a URL |
| Retailers.OtherSchemesAreNotUrls | scrapers/retailers/index.js:14 | "ftp://…" and "https:/…" are not URLs |
| Retailers.InferRetailerFromUrl | scrapers/retailers/index.js:17-23 | walmart.com, then target.com, then walgreens.com by substring, in that priority; null otherwise and for an empty URL |
| Retailers.InferredDomainOccurs | scrapers/retailers/index.js:17-23 | an inferred retailer's domain occurs in the URL |
| Retailers.InferSoleDomain | scrapers/retailers/index.js:17-23 | a URL holding exactly one retailer domain is inferred as that retailer |
| Retailers.ScrapeRetailer | scrapers/retailers/index.js:25-37 | an unknown retailer fails with "Unsupported retailer: …", except a name inherited from `Object.prototype`, which fails calling the missing `handler.search`; the product page is scraped iff the query is a URL inferred as the requested retailer; otherwise the query is searched |
| Retailers.ForeignUrlIsSearched | scrapers/retailers/index.js:29-36 | another retailer's URL is searched, not scraped |
| Retailers.OwnUrlIsScraped | scrapers/retailers/index.js:29-33 | a URL of the requested retailer only is scraped as a product page |
| Retailers.PlainQueryIsSearched | scrapers/retailers/index.js:29-36 | a non-URL query is searched |
| Retailers.MatchTarget | scrapers/retailers/index.js:48 | the match target is the query as title and the price only when it is a number |
| Retailers.Chosen | scrapers/retailers/index.js:46-50 | the picked match, else the first result, else undefined |
| Retailers.Finish | scrapers/retailers/index.js:51-59 | no best gives null with no call; a best with a truthy price, or without an asin, is returned as is; otherwise one lookup by asin and the spread of best and lookup, lookup fields winning |
| Retailers.LookupAmazon | scrapers/retailers/index.js:39-60 | an asin means one direct lookup and no search; no asin and no query gives null with no call; otherwise one search, then it throws iff pickBestMatch throws on the results, and else takes pickBestMatch at 0.2 or the first result |
| AmazonAnalyzer.Clamp | amazon-analyzer.js:135 | the score is clamped into [0,100], unchanged inside |
| AmazonAnalyzer.Score | amazon-analyzer.js:113-136 | the score always lies in [0,100] |
| AmazonAnalyzer.CalculateScore | amazon-analyzer.js:113-136 | the step-by-step updates of `score` compute the score rules |
| AmazonAnalyzer.UnknownSignalsScoreFifty | amazon-analyzer.js:114-133 | unknown sales, rating and reviews and no complaints leave the neutral 50 |
| AmazonAnalyzer.ManyComplaintsScoreZero | amazon-analyzer.js:122-135 | four or more complaints clamp the score to 0 |
| AmazonAnalyzer.RatingMonotone | amazon-analyzer.js:126-129 | a better rating never lowers the score |
| AmazonAnalyzer.SalesMonotone | amazon-analyzer.js:116-120 | higher monthly sales never lower the score |
| AmazonAnalyzer.CalculateRoi | amazon-analyzer.js:172-180 | 0 for a missing or non-positive buy price; otherwise the 15%-fee ROI rounded to one decimal (within 0.05, a whole number of tenths) |
| AmazonAnalyzer.ProfitableRoiNonNegative | amazon-analyzer.js:172-180 | a buy price at most 85% of the buy box gives a non-negative ROI |
| AmazonAnalyzer.NoBuyBoxTotalLoss | amazon-analyzer.js:173-179 | no buy box price gives -100% ROI |
| AmazonAnalyzer.ComparedPrice | amazon-analyzer.js:147 | the number `>=` reads from a price: a number as itself, null as 0, undefined as NaN |
| AmazonAnalyzer.SopChecks | amazon-analyzer.js:146-157 | four checks in key order; minPrice holds iff the price, with null read as 0, is at least `minPrice \|\| 0`, and fails for an undefined price; minRoi compares calculateROI with `minROI \|\| 0`; minMonthlySales is null iff sales are not a number; noIPComplaints is null iff hasComplaints is null and false iff it is truthy |
| AmazonAnalyzer.Summarize | amazon-analyzer.js:159-166 | passed iff no check is false iff failedChecks is empty; failedChecks are exactly the false keys, unknownChecks exactly the null keys, and the two are disjoint |
| AmazonAnalyzer.ValidateSop | amazon-analyzer.js:145-167 | the result carries the checks; passed iff no check is false; failed and unknown keys are disjoint |
| AmazonAnalyzer.UnknownNeverFails | amazon-analyzer.js:148-159 | unknown sales and complaints never fail validation; they are listed as unknown |
| AmazonAnalyzer.NullPricePassesDefaultMinimum | amazon-analyzer.js:147 | with no minPrice set, a null price passes the minPrice check (`null >= 0`) and an undefined price fails it |
| AmazonAnalyzer.NumberOrNull | amazon-analyzer.js:73-75 | a number passes, anything else is null |
| AmazonAnalyzer.Payload | amazon-analyzer.js:39-44 | an asin is preferred over a title query; the price is added only when it is a number |
| AmazonAnalyzer.GetProductLogistics | amazon-analyzer.js:38-88 | no asin and no title gives an all-null record without a request; otherwise the payload is sent and the response fields are taken when they are numbers, or an all-null record keeps the asin on error |
| AmazonAnalyzer.ProductOf | amazon-analyzer.js:14-16 | a string is taken as an asin; an object as the product; a falsy value as `{}` |
| AmazonAnalyzer.AnalyzeProduct | amazon-analyzer.js:13-31 | logistics from the lookup, default sales data, unknown complaints, asin from logistics then product, and the score of those |
| AmazonAnalyzer.AnalyzedScoreRange | amazon-analyzer.js:13-136 | with default sales and unknown complaints the score lies in [35,60] |
| AmazonAnalyzer.AsinLooksUpAsin | amazon-analyzer.js:14-40 | a non-empty asin string is looked up by asin |
| LlmAnalyzer.ParseResponse | llm-analyzer.js:125-140 | BUY iff the upper-cased text contains "RECOMMENDATION: BUY"; else AVOID iff it contains the AVOID phrase; else REVIEW; the text is kept |
| LlmAnalyzer.ParseIgnoresCase | llm-analyzer.js:127-131 | the parse does not depend on letter case |
| LlmAnalyzer.GetRuleBasedAnalysis | llm-analyzer.js:146-187 | complaints === true gives AVOID; a ROI under 20 with a positive buy box gives AVOID, and AVOID only then; any unknown that is reached gives REVIEW; BUY iff none of those, ROI >= 30, rating null or >= 4.2, and reviews null or >= 50 |
| LlmAnalyzer.ExplanationParses | llm-analyzer.js:164-179 | each explanation text written by the rules contains its own recommendation phrase and no other |
| LlmAnalyzer.RuleBasedRoundTrip | llm-analyzer.js:125-186 | parsing the rule-based analysis text gives back its recommendation |
| LlmAnalyzer.AnalyzeProductSuitability | llm-analyzer.js:42-55 | without an api key, or when the LLM call fails, the rule-based analysis; otherwise the parsed reply |
| LlmAnalyzer.SuitabilityMatchesText | llm-analyzer.js:42-186 | whatever path is taken, the recommendation is what its analysis text parses to |
| PyAnalyzer.Roi | scrapers/analyzer.py:95-96 | for a positive retail price, roi times the price is 100 times profit = amazon - retail - 15; otherwise 0 |
| PyAnalyzer.RoiSign | scrapers/analyzer.py:95-96 | the ROI is non-negative iff the Amazon price covers retail plus 15 |
| PyAnalyzer.FallbackAnalysis | scrapers/analyzer.py:92-116 | BUY iff roi >= 40, REVIEW iff 25 <= roi < 40, AVOID iff roi < 25; profit and roi as computed; using_fallback always set |
| PyAnalyzer.NoRetailPriceAvoids | scrapers/analyzer.py:96-107 | a non-positive retail price gives ROI 0 and AVOID |
| PyAnalyzer.FallbackMonotone | scrapers/analyzer.py:95-107 | raising the Amazon price keeps a BUY a BUY; lowering it keeps an AVOID an AVOID |
| PyAnalyzer.ParseReply | scrapers/analyzer.py:69-73 | BUY iff the upper-cased text contains "BUY"; else AVOID iff it contains "AVOID"; else REVIEW |
| PyAnalyzer.AvoidMentioningBuyReadsBuy | scrapers/analyzer.py:69-73 | a reply "AVOID: do not buy" is read as BUY, since BUY is looked for first, anywhere in the text |
| PyAnalyzer.ParseReplyIgnoresCase | scrapers/analyzer.py:70-72 | the parse does not depend on letter case |
| PyAnalyzer.AnalyzeProduct | scrapers/analyzer.py:22-90 | profit and roi from the product price; an answered reply is trimmed and parsed, defaulting to "Unable to analyze"; an unavailable model gives exactly the fallback analysis |
| PyAnalyzer.MissingResponseReviews | scrapers/analyzer.py:66-73 | an answer without a response field gives REVIEW |
| PyAnalyzer.BatchAnalyze | scrapers/analyzer.py:118-130 | one result per product, in order, each the analysis of that product with the product attached |
| PyAnalyzer.BatchEntryDefaults | scrapers/analyzer.py:123-127 | the product is attached; without a known asin the Amazon price is 1.5 times the retail price |
| PyAnalyzer.ExpandQuery | scrapers/analyzer.py:199-216 | the result starts with the original query, followed by the parsed expansion when there is one |
| PyAnalyzer.Similarity | scrapers/analyzer.py:232-250 | a substring hit scores 0.95; otherwise the larger of the title and retailer ratios |
| PyAnalyzer.Matches | scrapers/analyzer.py:235-256 | each match is a catalogue product with its similarity, at least the threshold |
| PyAnalyzer.MatchesComplete | scrapers/analyzer.py:235-256 | every product at or above the threshold is matched |
| PyAnalyzer.SortDesc | scrapers/analyzer.py:259 | the sort is a permutation |
| PyAnalyzer.SortDescSorted | scrapers/analyzer.py:259 | the sort orders by similarity, descending |
| PyAnalyzer.SortDescStable | scrapers/analyzer.py:259 | products with equal similarity keep their input order (the sort is stable) |
| PyAnalyzer.FuzzyResultsProperties | scrapers/analyzer.py:218-261 | results are catalogue products at or above the threshold, in descending similarity, and every such product is included |
| PyAnalyzer.SubstringHitFound | scrapers/analyzer.py:244-252 | a title containing the query is found for any threshold up to 0.95 |
| PyAnalyzer.FuzzySearchProducts | scrapers/analyzer.py:218-261 | the loop and sort return the fuzzy results |
| PyAnalyzer.CollectResults | scrapers/analyzer.py:285-289 | the loop concatenates the fuzzy results of every expanded query, in order |
| PyAnalyzer.UniqueByAsin | scrapers/analyzer.py:292-298 | the loop with its `seen` set keeps the first product per asin, in order |
| PyAnalyzer.IntelligentSearch | scrapers/analyzer.py:263-302 | direct fuzzy results if any; otherwise, with expansion, the first product per asin over all expansion results; otherwise empty |
| PyAnalyzer.OriginalQueryAddsNothing | scrapers/analyzer.py:277-298 | when the direct search found nothing, repeating the original query in the expansion adds nothing |
| PyAnalyzer.ExpandedResultsDistinct | scrapers/analyzer.py:277-300 | results come from the catalogue, and expanded results have distinct asins |
| Target.NormalizeTargetUrl | scrapers/retailers/target.js:30-34 | falsy gives ''; "http…" is unchanged; anything else is joined to https://www.target.com; a truthy non-string throws |
| Target.NormalizeTargetUrlIdempotent | scrapers/retailers/target.js:30-34 | normalising a normalised address changes nothing |
| Target.ApiEntry | scrapers/retailers/target.js:50-93 | a 'target' product whose price is the first non-nullish field of the chain (default 0) and whose original defaults to the price; it throws iff the entry is nullish or its url path is a truthy non-string |
| Target.MapFromTargetApi | scrapers/retailers/target.js:48-95 | non-array input gives []; otherwise one 'target' product per entry, in order, failing iff some entry throws |
| Target.ZeroPriceKept | scrapers/retailers/target.js:58-65 | `??` keeps a 0 current price: price and original are 0 and no clearance |
| Target.SearchTargetApi | scrapers/retailers/target.js:202-240 | keyword products, truncated, when there are any; no products and no redirect category gives []; at most `limit` results |
| Target.Tcin | scrapers/retailers/target.js:159 | a tcin found in a URL is a non-empty run of digits |
| Target.TcinLeftmost | scrapers/retailers/target.js:159 | the tcin is the digit run after the leftmost "/A-" followed by a digit, case-insensitively |
| Target.TcinAbsent | scrapers/retailers/target.js:159-160 | a URL without "/A-<digit>" has no tcin |
| Target.MatchOf | scrapers/retailers/target.js:156-161 | a link contributes at most one match |
| Target.CollectMatches | scrapers/retailers/target.js:152-162 | the loop keeps the first 2·limit links that have a tcin |
| Target.UniqueCap | scrapers/retailers/target.js:170 | the push-then-check loop keeps at least one item, and `limit` items for a positive limit |
| Target.UniqueByTcin | scrapers/retailers/target.js:164-171 | the loop keeps the first match per tcin, stopping at the cap |
| Target.JinaTcins | scrapers/retailers/target.js:152-171 | collection then dedupe gives the Jina candidates |
| Target.WithTcinSound | scrapers/retailers/target.js:156-161 | every collected match carries its URL's tcin; no more matches than links, and one per link when all links have a tcin |
| Target.JinaCandidatesProperties | scrapers/retailers/target.js:152-171 | candidates have distinct digit tcins taken from their URLs, and number at most `limit` |
| Target.Search | scrapers/retailers/target.js:341-421 | API products first, then Jina products, then the final merge of page-data, LD and HTML products; at most `limit` results |
| Target.ApiResultsFirst | scrapers/retailers/target.js:219-347 | non-empty API products are returned truncated, whatever the fallbacks hold |
| Target.HtmlFallbackProperties | scrapers/retailers/target.js:413-420 | the HTML fallback result is listable, has distinct keys, and is a subsequence of the sources in order |
| Walgreens.NormalizeWalgreensUrl | scrapers/retailers/walgreens.js:23-28 | falsy gives ''; "http…" is unchanged; "//…" gains "https:"; anything else is joined to https://www.walgreens.com; a truthy non-string throws |
| Walgreens.NormalizeWalgreensUrlIdempotent | scrapers/retailers/walgreens.js:23-28 | normalising a normalised address changes nothing |
| Walgreens.ProtocolRelativeKeepsHost | scrapers/retailers/walgreens.js:26 | "//host" becomes "https://host" |
| Walgreens.PageSize | scrapers/retailers/walgreens.js:165 | the page size is the limit clamped to [1,72] |
| Walgreens.ApiEntry | scrapers/retailers/walgreens.js:36-71 | a 'walgreens' product with price from the `||` chain (default 0) and original defaulting to the price; it throws iff the entry is nullish or its url or image is a truthy non-string |
| Walgreens.Entries | scrapers/retailers/walgreens.js:32-34 | an array is used as is; an object's values otherwise |
| Walgreens.MapFromApiProducts | scrapers/retailers/walgreens.js:30-73 | no data or no products gives []; otherwise one 'walgreens' product per entry, in order, failing iff some entry throws |
| Walgreens.ZeroSalePriceFallsThrough | scrapers/retailers/walgreens.js:40-45 | `||` skips a 0 sale price: the regular price is used |
| Walgreens.ApiListed | scrapers/retailers/walgreens.js:190-197 | every API product kept is a 'walgreens' product with a title and a positive price |
| Walgreens.Search | scrapers/retailers/walgreens.js:163-286 | listed API products truncated when any; otherwise the final merge of state, LD and HTML products |
| Walgreens.SearchListable | scrapers/retailers/walgreens.js:190-285 | every result has a title and a positive price; at most `limit` results |
| Walgreens.ApiPathKeepsDuplicates | scrapers/retailers/walgreens.js:190-281 | the API path does not dedupe, so a repeated product is listed twice, while the page merge lists it once |
| Walmart.ProductUrl | scrapers/retailers/walmart.js:49-53 | "http…" is unchanged; a non-empty relative path is joined to https://www.walmart.com; '' stays ''; a non-string throws |
| Walmart.ProductUrlIdempotent | scrapers/retailers/walmart.js:49-53 | building an address from a built address changes nothing |
| Walmart.MapItemToProduct | scrapers/retailers/walmart.js:17-74 | a 'walmart' product with price and original from their `??` chains (defaults 0 and the price); it throws iff the item is nullish or its url path is not a string |
| Walmart.CurrentPriceFirst | scrapers/retailers/walmart.js:18-28 | `priceInfo.currentPrice.price` wins the price chain |
| Walmart.WasPriceMarksDown | scrapers/retailers/walmart.js:30-39 | `priceInfo.wasPrice.price` becomes the original price, and above the current price it marks clearance |
| Walmart.PricelessItemUnlisted | scrapers/retailers/walmart.js:18-28 | an item with no price fields gets price 0 and is filtered out of the listing |
| Walmart.Spread | scrapers/retailers/walmart.js:83-84 | `flatMap` spreads an array callback result and keeps any other value as one element |
| Walmart.ItemsOf | scrapers/retailers/walmart.js:84 | `stack.items` throws iff the stack is nullish |
| Walmart.ExtractStackItems | scrapers/retailers/walmart.js:76-86 | falsy data gives []; otherwise the flattened items of the item stacks of the first 10 matching nodes, failing iff one of those stacks is nullish |
| Walmart.StackNodesProperties | scrapers/retailers/walmart.js:78-82 | at most 10 nodes, each holding an `itemStacks` array, in walk order |
| Walmart.SingleStack | scrapers/retailers/walmart.js:76-86 | one stack of plain items gives exactly those items |
| Walmart.MapFromNextData | scrapers/retailers/walmart.js:88-103 | falsy data gives []; otherwise the mapped stack items followed by the mapped candidates |
| Walmart.StackItemsFirst | scrapers/retailers/walmart.js:88-103 | stack products come first, one per stack item and in order, followed by at most 60 candidates |
| Walmart.Search | scrapers/retailers/walmart.js:203-221 | the final merge of next-data, redux, LD and HTML products, in that order |
| Walmart.FirstSourceFirst | scrapers/retailers/walmart.js:214-221 | a listable first item is the first result |
| Walmart.NextDataWins | scrapers/retailers/walmart.js:208-221 | a listable first next-data product heads the results |
| Walmart.SearchProperties | scrapers/retailers/walmart.js:214-221 | results are listable, have distinct `url || id` keys, and number at most `limit` |

## Left out

- Network I/O is not modelled. This covers `scrapers/http.js` (fetch, timeouts, retries, `sleep`) and every `fetchText`/`fetchJson` call; the data they return are parameters.
  - `Target.Search` takes the API, Jina, page-data, LD and HTML product lists.
  - `Walgreens.Search` takes the API response as an `Option`; `None` stands for a failed call.
  - `Walmart.Search` takes the parsed page data.
- Errors the source catches and ignores are modelled as the empty result they lead to, because the catch blocks only log. This covers Target's API and Jina errors and Walgreens's API error.
- The Target Jina path's concurrent four-worker fetch pool over product pages (`scrapers/retailers/target.js:173-188`) and `mapFromTargetPdp` are not modelled, because the pool exists only for concurrency. The Jina product list is a parameter of `Target.Search`.
- The Jina markdown link regex (`scrapers/retailers/target.js:153-154`) is a foreign regular-expression engine. Its captured (title, url) pairs are the parameter `found`. The tcin regex `/\/A-(\d+)/i` is modelled.
- `parseTargetRedirect` uses `new URL`. It is represented by its outcome, the `category` parameter of `Target.SearchTargetApi`.
- Browser automation (Playwright), captcha detection on retailer pages and the debug file dumps are I/O and are not modelled.
- Cheerio HTML extraction is a foreign library and is not modelled: every adapter's `mapFromHtml`, the Amazon search-page and product-page parsers, and `extractLdJson`.
- `mapFromLdJson`, Target's `mapFromNextData` and Walgreens's `mapFromState` are not modelled; their results are parameters of each `Search`.
- The regex-plus-`JSON.parse` extractors (`extractNextData`, `extractWindowState`) are foreign calls.
- `Math.log` in the price score and `SequenceMatcher.ratio` in the Python fuzzy search are uninterpreted function parameters. Floating-point rounding is not modelled; numbers are exact reals.
- NaN and Infinity are not modelled.
- `Number.isFinite` checks that can only fail on them are not modelled, e.g. the `ratio <= 0` guard of `priceScore`, which cannot fire for positive prices.
- Environment variables (the price-ratio band of `pickBestMatch`, adapter flags) are parameters.
- `Date.now()` in the cache is the explicit `now` argument.
- `new Date().toISOString()` and `datetime.now()` timestamps are omitted from results.
- `Parse.Hex` encodes characters as UTF-8 bytes, but the round trip is proved for ASCII titles only.
- Number-to-string conversion (`String(n)`, template literals) is modelled for decimals without exponent notation.
- `Parse.NormalizeRetailProduct`: for a truthy non-string title the fallback id uses ''. In the source, `.slice` would throw for a number, or produce other bytes for an array.
- `Parse.DedupeBy` compares keys by value. JavaScript's `Set` compares objects by reference; the keys used (`url || id`) are strings.
- Case conversion (`toLowerCase`, `toUpperCase`, `.upper()`, `.lower()`) is ASCII-only.
- Python's `strip` is modelled as JavaScript's `trim`; the two differ on some Unicode white-space characters.
- `PyAnalyzer.ExpandQuery`: expansion replies whose list holds non-string items are not modelled; the expansion is a list of strings.
- The LLM prompt text (`formatProductData`, the Ollama prompts), the HTTP calls to the LLM and `save_analysis` (SQLite) are not modelled. The reply is a parameter.
- `PyAnalyzer.ExpandQuery`: the JSON parse of the expansion reply is a parameter; a non-list reply is `None`.
- The defaults `minScore = 0.2` of `pickBestMatch` (`scrapers/match.js:197`) and `threshold = 0.6` of `fuzzy_search_products` (`scrapers/analyzer.py:218`) are not modelled as defaults: every caller passes its value. `Retailers.LookupAmazon` passes 0.2 and `PyAnalyzer.IntelligentSearch` passes 0.5, as their sources do. Likewise the default `limit = 24` of the adapters' search functions (`scrapers/retailers/target.js:147`, `:202` and `:341`, `scrapers/retailers/walgreens.js:163`, `scrapers/retailers/walmart.js:158`) and the default `limit = 50` of `collectByPredicate` (`scrapers/parse.js:61`) are not modelled: the limit is an explicit parameter of `Target.Search`, `Walgreens.Search`, `Walmart.Search` and `Parse.CollectByPredicate`. The default `limit = 6` of `lookupAmazon` (`scrapers/retailers/index.js:39`) is modelled: `Retailers.LookupAmazon` reads an undefined limit as 6.
- `Match.PickBestMatch`: `{ ...candidate, score }` of a string or array candidate copies its indexed elements as members; `JsValues.Put` starts from no members for any value that is not an object.
- `PyAnalyzer.AnalyzeProduct`: the `{roi:.1f}` formatting used in the fallback analysis text is the parameter `formatRoi`.
- `PyAnalyzer.BatchEntryDefaults`: a product whose `price` key holds None (a TypeError in Python) is not modelled; a missing price counts as 0.
- `Match.PickBestMatch`: the end-to-end checks of `tests/match.test.js` are not restated for their concrete titles, because normalising and comparing titles of that length character by character is beyond what the verifier proves in reasonable time. The price side of the first check is `Match.ConsoleBundleSkipped`, and its type-factor side is `Match.GameAgainstBundle`. That the full score comparison of the second check goes the same way is not proved.
- `scrapers/scraper.py`, `server.js`, `app.js` and `scraper.js` are not part of this model; of the test suites, only the cases named above are restated.
- `AmazonAnalyzer.SopChecks`: a string, array or object price is read as NaN, so the minPrice check fails for it; JavaScript's `>=` converts such a value with ToNumber first (a numeric string such as "12" compares as 12), and that conversion is not modelled.
- `AmazonAnalyzer.SopChecks`: `calculateROI` reads the buy price as `product.price || 0`; the model passes it the price only when it is a number, so a truthy price that is not a number (`true`, a numeric string) counts as 0 where the source would use its ToNumber value.
