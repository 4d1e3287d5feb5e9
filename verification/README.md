# Content acquisition and quality gating, in Dafny

This project models the deterministic core of the ARQV30 content pipeline:

- **`RobustContentExtractor`** fetches a page through three strategies in
  priority order: Jina Reader, direct HTML text, and an aggressive fallback.
  Each strategy's result must clear its own length bar. The extractor
  normalises page text with `_clean_text`, counts every extraction in six
  counters, and runs whole batches of URLs.
- **`ContentQualityValidator`** scores a (content, URL) pair with a
  five-factor rubric, classifies the score into a quality level, decides
  validity, and summarises batches of reports.
- **`PredictiveAnalyticsEngine`** extracts counts, numbers and the ten most
  frequent words from collected text. Its threshold classifiers turn those
  metrics into growth, competition, opportunity and risk predictions.

The model is written as pure functions over immutable data. The extractor's
counters are an explicit `Stats` value that every call takes and returns.
The network is an oracle: for each strategy, the text the HTTP call would
produce is an input.

Modules:

| file | module | models |
|---|---|---|
| wrappers.dfy | `Wrappers` | `Option` and `Result` |
| ratio.dfy | `Ratio` | the percentages and means, as exact rationals |
| py_text.dfy | `PyText` | the Python `str` operations the code uses: `isspace`, `strip`, `split`, `splitlines`, `lower`, `in`, `count`, `join`, `startswith` and `endswith` |
| patterns.dfy | `Patterns` | the regular expressions as matchers, and `re.findall` as a left-to-right scan |
| url.dfy | `Url` | `urlparse(url).netloc`, including its `ValueError` on an unmatched bracket |
| quality_validator.dfy | `QualityValidator` | `validate_content`, `validate_batch` and `get_validation_summary` |
| text_cleaner.dfy | `TextCleaner` | `_clean_text` |
| content_extractor.dfy | `ContentExtractor` | the three strategies, `extract_content`, the counters, `get_extractor_stats` and `clear_cache` |
| batch_extraction.dfy | `BatchExtraction` | `batch_extract` |
| predictive_engine.dfy | `PredictiveEngine` | `_extract_real_metrics`, `_predict_market_growth`, `_analyze_competition_data`, `_score_opportunities` and `_assess_real_risks` |

Behaviours of the code that the model keeps, each with its evidence:

- **Jina output is truncated, not cleaned.** `_extract_with_jina` cuts a
  response longer than 15000 characters to its first 15000 plus
  `"... [conteúdo truncado]"` and does not call `_clean_text`
  (robust_content_extractor.py:108-114).
- **The validator can raise.** `urlparse` raises
  `ValueError("Invalid IPv6 URL")` when the network location has one of `[`
  and `]` without the other. The call comes after the empty-content check
  (content_quality_validator.py:32, :106), so `ValidateContent` returns a
  `Result` whose only failure is that error.
- **Invalid URLs are not counted.** A URL that is empty or lacks an
  `http://` or `https://` prefix returns None before any counter moves
  (robust_content_extractor.py:53-57). The total counts only calls with a
  valid URL.
- **The result bars are on the stripped text.** A strategy's text is
  accepted when `len(content.strip())` is more than 100 for Jina and direct,
  and more than 50 for the fallback (robust_content_extractor.py:63, :71,
  :79).
- **Short content has few words.** `split()` words are separated by
  whitespace, so `2 * words <= length + 1` (`PyText.WordCountBound`): content
  shorter than 199 characters cannot hold 100 words.
- **Duplicate URLs run once per submission.** `batch_extract` submits one
  task per element of the URL list, not one per distinct URL
  (robust_content_extractor.py:212). A URL listed twice is extracted and
  counted twice, and its entry holds one of the two results.

## Model

| member | source | states |
|---|---|---|
| QualityValidator.LengthGrade | src/services/content_quality_validator.py:55-67 | 25 points exactly from 2000 characters, 20 from 1000 to 1999, 15 from 500 to 999, 10 from 100 to 499, else 0; the 'too short' issue exactly under 100; the 'extenso' strength exactly from 2000 and the 'substancial' one exactly from 1000 to 1999 |
| QualityValidator.WordGrade | src/services/content_quality_validator.py:69-79 | 25 points exactly from 300 words, 20 from 150 to 299, 15 from 75 to 149, else 0; the low-density issue exactly under 75 words; the high-density strength exactly from 300 |
| QualityValidator.DataMatches | src/services/content_quality_validator.py:81-93 | the five patterns together match at most five times per character of content |
| QualityValidator.DataGrade | src/services/content_quality_validator.py:95-103 | 20 points exactly from 10 matches, 15 from 5 to 9, 10 from 2 to 4, else 0; the few-data issue exactly under 2; the data-rich strength exactly from 10 |
| QualityValidator.SourceGrade | src/services/content_quality_validator.py:105-121 | never an issue; 15 points and the official-source strength exactly for a trusted substring; 12 and the news strength exactly for a news substring without a trusted one; 8 exactly for a `.com.br` suffix with neither, else 5 |
| QualityValidator.CountPresent | src/services/content_quality_validator.py:130-131 | the relevance match count is at most the number of keywords |
| QualityValidator.CountPresentIsCardinality | src/services/content_quality_validator.py:129-131 | for distinct keywords, the count equals the size of the set of keywords found in the text |
| QualityValidator.RelevanceCountsDistinctKeywords | src/services/content_quality_validator.py:124-131 | relevance counts each keyword present at most once, so at most 10 |
| QualityValidator.RelevanceGrade | src/services/content_quality_validator.py:133-141 | 15 points exactly from 8 keywords, 12 from 5 to 7, 8 from 3 to 4, else 0; the low-relevance issue exactly under 3; the highly-relevant strength exactly from 8 |
| QualityValidator.RubricIssues | src/services/content_quality_validator.py:55-141 | each factor's issue is in the issue list exactly when that factor raised it; at most five issues and strengths in all |
| QualityValidator.LevelOf | src/services/content_quality_validator.py:146-153 | excellent exactly from 90, good from 70 to 89, fair from 50 to 69, poor below 50; never `invalid` |
| QualityValidator.LevelMonotone | src/services/content_quality_validator.py:146-153 | a higher score never gets a lower level |
| QualityValidator.FactorLaddersMonotone | src/services/content_quality_validator.py:56-141 | the length, word, data and relevance points never decrease as their measure grows |
| QualityValidator.ValidateContent | src/services/content_quality_validator.py:30-161 | empty content gives the fixed invalid report; the only failure is the URL parser's; otherwise the score is in 5..100, the level is the one the score's band names and never `invalid`, `valid` holds iff length ≥ 100 and score ≥ 30, and the issue and strength lists are exactly those the thresholds call for, in factor order |
| QualityValidator.RubricNotes | src/services/content_quality_validator.py:54-141 | the five factors append exactly the issues and strengths their thresholds call for, one at most per factor, in factor order |
| QualityValidator.ScoreIsSumOfFactors | src/services/content_quality_validator.py:53-144 | the score is the sum of the five factors' points |
| QualityValidator.ShortContentAtMostFair | src/services/content_quality_validator.py:55-159 | content under 100 characters scores at most 50, is invalid, and is rated poor or fair |
| QualityValidator.ShortRubric | src/services/content_quality_validator.py:55-141 | the rubric total of content under 100 characters is at most 50 |
| QualityValidator.ShortHasFewWords | src/services/content_quality_validator.py:49 | content under 100 characters has at most 50 words |
| QualityValidator.ValidIsAtLeastPoor | src/services/content_quality_validator.py:155-159 | a valid report has a score of at least 30 and content of at least 100 characters |
| QualityValidator.ValidateBatch | src/services/content_quality_validator.py:163-170 | the batch has exactly the input keys, each holding that key's own report; the batch fails iff some entry's URL makes the parser raise |
| QualityValidator.Tally | src/services/content_quality_validator.py:178-180 | counting a level adds one to that level only, and one to the distribution total |
| QualityValidator.ScoreSumRemove | src/services/content_quality_validator.py:182 | the score sum over a set of keys is one report's score plus the sum over the rest |
| QualityValidator.CountsStep | src/services/content_quality_validator.py:174-182 | adding one report to the running tallies keeps them equal to the counts over the keys seen so far |
| QualityValidator.Summarize | src/services/content_quality_validator.py:172-190 | the total is the number of reports; valid counts the valid ones; valid + invalid = total; every distribution entry is positive, each level's count is the number of reports at that level, and the counts sum to the total; the rate and mean are exact and 0 for no reports |
| QualityValidator.NewValidator | src/services/content_quality_validator.py:18-26 | the constructor sets no `stats` attribute |
| QualityValidator.GetExtractorStats | src/services/content_quality_validator.py:194-196 | reading `self.stats` fails exactly when the attribute is missing |
| QualityValidator.SummarizeAsWritten | src/services/content_quality_validator.py:172-196 | the summary as written fails with AttributeError for every input on every constructed validator |
| Url.Netloc | src/services/content_quality_validator.py:106 | parsing fails exactly when the netloc has one bracket without the other; otherwise it yields the text between `//` and the first `/`, `?` or `#` |
| Url.NetlocOfWebUrl | src/services/content_quality_validator.py:106 | for `http(s)://host/path` with balanced brackets the netloc is `host` |
| Url.NetlocRaisesOnOpenBracket | src/services/content_quality_validator.py:106 | `http(s)://host/path` whose host has `[` but no `]` makes parsing raise |
| PyText.Words | src/services/content_quality_validator.py:49 | every word `split()` returns is non-empty and holds no whitespace |
| PyText.WordCountBound | src/services/content_quality_validator.py:49 | a text of length n has at most (n + 1) / 2 words |
| PyText.Strip | src/services/robust_content_extractor.py:195 | `strip()` removes exactly the leading and trailing whitespace and keeps the inside |
| PyText.SplitLinesJoin | src/services/robust_content_extractor.py:194-199 | splitting the newline-join of lines without line breaks gives the lines back |
| PyText.ContainsIffOccurs | src/services/content_quality_validator.py:130-131 | `sub in s` holds iff `sub` occurs at some position of `s` |
| PyText.CountPositiveIffContains | src/engine/predictive_analytics_engine.py:140 | `s.count(sub)` is positive iff `sub in s` |
| Patterns.MatchLength | src/services/content_quality_validator.py:82-88 | a number match starts exactly at a digit; a long-word match is a run of at least four word characters |
| Patterns.FindAllFrom | src/services/content_quality_validator.py:91-93 | `findall` returns non-empty matches, no more of them than characters scanned; long-word matches are runs of at least four word characters |
| Patterns.RecentYearMeaning | src/services/content_quality_validator.py:86 | the year pattern matches exactly the four-digit numbers 2023 to 2099 |
| TextCleaner.CollapseBlankLinesNoop | src/services/robust_content_extractor.py:189 | text without a newline followed by whitespace passes the blank-line substitution unchanged |
| TextCleaner.CollapseSpacesFrom | src/services/robust_content_extractor.py:190 | after the space substitution no two spaces are adjacent, the text is empty only if the input was, and no newline is added |
| TextCleaner.CollapseSpacesNoop | src/services/robust_content_extractor.py:190 | text without double spaces passes the space substitution unchanged |
| TextCleaner.CleanLines | src/services/robust_content_extractor.py:193-197 | no more lines come out than went in, and every kept line is stripped, longer than 10 characters and free of line breaks |
| TextCleaner.CleanLinesFromInput | src/services/robust_content_extractor.py:193-197 | every kept line is the stripped form of an input line |
| TextCleaner.CleanLinesKeepsLong | src/services/robust_content_extractor.py:193-197 | every input line whose stripped form is longer than 10 characters is kept, stripped |
| TextCleaner.CleanLinesSingle | src/services/robust_content_extractor.py:193-197 | one line gives its stripped form exactly when that is longer than 10 characters, else nothing |
| TextCleaner.CleanLinesAppend | src/services/robust_content_extractor.py:193-197 | filtering a concatenation filters each part, so the kept lines keep the input order |
| TextCleaner.CleanLinesNoDoubleSpace | src/services/robust_content_extractor.py:193-197 | input lines free of double spaces give kept lines free of double spaces |
| TextCleaner.CleanLinesNoop | src/services/robust_content_extractor.py:193-197 | lines that are already kept lines all pass the filter unchanged |
| TextCleaner.Truncate | src/services/robust_content_extractor.py:202-203 | text within the limit is unchanged; longer text becomes its first `limit` characters followed by the marker |
| TextCleaner.CleanText | src/services/robust_content_extractor.py:183-205 | empty text gives ""; the result is stripped and at most 12000 + len("... [truncado]") characters |
| TextCleaner.JoinKeptIsClean | src/services/robust_content_extractor.py:199 | the newline-join of kept lines has no blank line and no double space |
| TextCleaner.CleanTextLines | src/services/robust_content_extractor.py:189-205 | under the cap every line of the result is stripped, longer than 10 characters and free of double spaces; over the cap the result is the first 12000 characters plus the marker |
| TextCleaner.CleanTextIdempotent | src/services/robust_content_extractor.py:183-205 | cleaning a cleaned text of at most 12000 characters changes nothing |
| ContentExtractor.JinaTier | src/services/robust_content_extractor.py:107-117 | Jina yields text exactly when the response was 200; text within 15000 characters is returned as is, longer text is its first 15000 characters followed by the marker; it is not cleaned |
| ContentExtractor.DirectTier | src/services/robust_content_extractor.py:144-151 | the direct strategy returns text exactly when the page text is there; the text is stripped, empty for an empty page and at most 12000 characters plus the cleaner's marker |
| ContentExtractor.FallbackTier | src/services/robust_content_extractor.py:174-177 | the fallback returns text exactly when the cleaned page text is longer than 50 characters; the text is stripped, longer than 50 and at most 12000 characters plus the cleaner's marker |
| ContentExtractor.RunChain | src/services/robust_content_extractor.py:59-88 | Jina wins iff a key is set and it passes the 100 bar; direct wins iff Jina did not and direct passes 100; fallback wins iff neither did and it passes 50; the winner's text is its offer; Jina is consulted iff a key is set, later tiers only after earlier misses, always in priority order |
| ContentExtractor.ChainBars | src/services/robust_content_extractor.py:63-79 | a winning text has more than 50 stripped characters, and more than 100 unless it came from the fallback |
| ContentExtractor.Record | src/services/robust_content_extractor.py:64-86 | a miss adds one failure; a win adds one success and one to the winning strategy's counter |
| ContentExtractor.ExtractContent | src/services/robust_content_extractor.py:51-93 | an invalid URL returns None, consults nothing and leaves the counters alone; for a valid one the result is the text of the first strategy in priority order whose text passes its bar, or None when none does, and the counters are the old ones plus one attempt recorded against that winner (or as a failure); a result has more than 50 stripped characters; consistency is kept |
| ContentExtractor.Step | src/services/robust_content_extractor.py:57-88 | the change one call makes is consistent, with total 1 for a valid URL and one success iff the chain won |
| ContentExtractor.SettleAddsStep | src/services/robust_content_extractor.py:57-88 | a call adds the same change to any counters |
| ContentExtractor.SettleIgnoresStats | src/services/robust_content_extractor.py:59-88 | the result and consulted list do not depend on the counters before the call |
| ContentExtractor.ContentIgnoresStats | src/services/robust_content_extractor.py:51-93 | two calls with the same URL and offers return the same text from any counters |
| ContentExtractor.Plus | src/services/robust_content_extractor.py:40-47 | adding two consistent counter sets gives a consistent one |
| ContentExtractor.OfferBounds | src/services/robust_content_extractor.py:111-205 | Jina text is at most 15000 + its marker; direct and fallback text at most 12000 + the cleaner's marker; fallback text longer than 50 |
| ContentExtractor.ResultBounded | src/services/robust_content_extractor.py:111-112 | whatever `extract_content` returns is at most 15000 + len("... [conteúdo truncado]") characters |
| ContentExtractor.ClearCache | src/services/robust_content_extractor.py:237-240 | `clear_cache` returns True and leaves every counter unchanged |
| ContentExtractor.ExtractorStats | src/services/robust_content_extractor.py:225-235 | the report holds the counters unchanged, `jina_available` iff a key is set, and the success rate is 0 with no extraction, otherwise successful / total × 100, within 0..100 when the counters are consistent |
| BatchExtraction.Delta | src/services/robust_content_extractor.py:57-88 | one task changes the counters consistently and adds at most 1 to the total |
| BatchExtraction.ExtractAddsDelta | src/services/robust_content_extractor.py:51-93 | a call's counters are the counters before plus its task's change |
| BatchExtraction.UrlsMembers | src/services/robust_content_extractor.py:212 | the URL set holds exactly the submitted URLs |
| BatchExtraction.RunOne | src/services/robust_content_extractor.py:214-218 | one completed task yields its URL's text and adds its change to the counters |
| BatchExtraction.GatherKeys | src/services/robust_content_extractor.py:209-223 | the result keys are the keys before plus exactly the submitted URLs |
| BatchExtraction.GatherKeeps | src/services/robust_content_extractor.py:209-223 | a key no task submits keeps its value |
| BatchExtraction.GatherResults | src/services/robust_content_extractor.py:214-221 | each submitted URL holds the text of one of its submissions |
| BatchExtraction.GatherStats | src/services/robust_content_extractor.py:214-218 | the counters end as the counters before plus the sum of the tasks' changes |
| BatchExtraction.ExtractorFacts | src/services/robust_content_extractor.py:214-218 | one `extract_content` task yields the same text from any counters and adds its own change to them |
| BatchExtraction.BatchResults | src/services/robust_content_extractor.py:207-223 | each submitted URL holds the text an `extract_content` call gives for one of its submissions |
| BatchExtraction.BatchStats | src/services/robust_content_extractor.py:207-223 | after a batch the counters are the counters before plus every task's change |
| BatchExtraction.BatchExtract | src/services/robust_content_extractor.py:207-223 | no worker fails with "max_workers must be greater than 0"; otherwise the keys are the distinct URLs, each value is an `extract_content` result for that URL, the total grows by at most the number of tasks, and consistency is kept |
| BatchExtraction.SumOfPermutation | src/services/robust_content_extractor.py:214-218 | summing per-task changes gives the same total in any order |
| BatchExtraction.SumDeltaPermutation | src/services/robust_content_extractor.py:211-218 | any reordering of the tasks changes the counters by the same amount |
| BatchExtraction.BatchStatsOrderFree | src/services/robust_content_extractor.py:211-218 | the counters after a batch are the same whatever order the tasks complete in |
| PredictiveEngine.Bump | src/engine/predictive_analytics_engine.py:152-153 | `d[w] = d.get(w, 0) + 1` adds one to w's count only, and appends w as a new key exactly when it was absent |
| PredictiveEngine.FirstOccurrences | src/engine/predictive_analytics_engine.py:150-153 | the reference key order: each word once, exactly the words of the input |
| PredictiveEngine.Tally | src/engine/predictive_analytics_engine.py:150-153 | each word's count is its number of occurrences, and the keys are the words in first-occurrence order |
| PredictiveEngine.TallyCounts | src/engine/predictive_analytics_engine.py:150-153 | the tally has no repeated key, one entry per distinct word, each with its number of occurrences |
| PredictiveEngine.LongEnoughKeepsAll | src/engine/predictive_analytics_engine.py:149-152 | the `len(word) > 3` guard never drops a word of the `\b\w{4,}\b` scan |
| PredictiveEngine.Insert | src/engine/predictive_analytics_engine.py:156 | inserting into a descending list keeps it descending and adds exactly that entry |
| PredictiveEngine.SortDesc | src/engine/predictive_analytics_engine.py:156 | the sorted items are a permutation of the input, in descending count order |
| PredictiveEngine.SortStable | src/engine/predictive_analytics_engine.py:156 | the sort is stable: the entries of each count keep their input order |
| PredictiveEngine.SortDistinct | src/engine/predictive_analytics_engine.py:156 | sorting never makes a word appear twice |
| PredictiveEngine.TopShape | src/engine/predictive_analytics_engine.py:155-157 | the keyword dictionary holds min(10, distinct words) entries, no word twice, most frequent first |
| PredictiveEngine.TopCounts | src/engine/predictive_analytics_engine.py:149-157 | each kept keyword is a long word of the text, with its exact number of occurrences |
| PredictiveEngine.TopMaximal | src/engine/predictive_analytics_engine.py:155-157 | no word left out occurs more often than any word kept |
| PredictiveEngine.TopKeywords | src/engine/predictive_analytics_engine.py:149-157 | `keywords_frequency` is the top ten of the long words of the lowered text, so it has at most 10 entries |
| PredictiveEngine.ExtractRealMetrics | src/engine/predictive_analytics_engine.py:128-159 | the length is the text's; sources = count("URL:") + count("Fonte:"); every number match is counted in `data_points` and only the first 20 are kept |
| PredictiveEngine.SelectTerms | src/engine/predictive_analytics_engine.py:180-184 | a key is selected iff it contains one of the stems; no more terms than keys, and none twice when the keys are distinct |
| PredictiveEngine.SelectTermsAppend | src/engine/predictive_analytics_engine.py:180-184 | the selection of a concatenation is the selection of each part, in order, so the terms keep the keys' order |
| PredictiveEngine.SelectTermsCount | src/engine/predictive_analytics_engine.py:180-186 | over distinct keys, the number of terms is the number of distinct keys holding a stem |
| PredictiveEngine.PredictMarketGrowth | src/engine/predictive_analytics_engine.py:161-175 | `data_quality` is Alta iff data points > 50, Média iff 21 to 50, else Baixa; the growth potential is Alto iff 2·points + 5·sources > 70, Médio iff 41 to 70, else Baixo; confidence is that evidence / 100 capped at 1; sources are echoed |
| PredictiveEngine.AnalyzeCompetition | src/engine/predictive_analytics_engine.py:177-191 | the player count is the number of keywords holding a competition stem and the listed terms are the first 5 of them in keyword order; intensity is Alta iff more than 3, else Média; saturation is Moderada iff more than 20 keywords, else Baixa |
| PredictiveEngine.ScoreOpportunities | src/engine/predictive_analytics_engine.py:193-207 | n is the number of keywords holding an opportunity stem and the indicators are the first 5 of them in keyword order; score = min(20·n, 100); signals are Fortes iff n > 2 |
| PredictiveEngine.AssessRisks | src/engine/predictive_analytics_engine.py:209-223 | n is the number of keywords holding a risk stem and the indicators are the first 5 of them in keyword order; level is Alto iff n > 3, Médio iff n is 2 or 3, Baixo iff n ≤ 1; mitigation needed iff n > 2 |
| PredictiveEngine.GenerateRealPredictions | src/engine/predictive_analytics_engine.py:104-121 | the predictions report at most 20 numeric indicators |
| PredictiveEngine.SaturationAlwaysLow | src/engine/predictive_analytics_engine.py:157-190 | fed by the extracted metrics (at most 10 keywords), saturation is always Baixa: the Moderada branch is unreachable |
| PredictiveEngine.ClassifiersBounded | src/engine/predictive_analytics_engine.py:182-216 | with at most 10 keywords each term count is at most 10, and the opportunity score is a multiple of 20 |
| PredictiveEngine.TermCountsBounded | src/engine/predictive_analytics_engine.py:182-216 | on any text, the competition, opportunity and risk term counts are at most 10 |
| PredictiveEngine.HighQualityFullNumbers | src/engine/predictive_analytics_engine.py:144-174 | high data quality means more than 50 numbers were found and exactly 20 are reported |
| Ratio.Percentage | src/services/robust_content_extractor.py:227-229 | the rate is 0 for an empty whole, otherwise part × 100 / whole, and within 0..100 when part ≤ whole |
| Ratio.Mean | src/services/content_quality_validator.py:182 | the mean is 0 for no items, otherwise sum / count |

## Left out

- HTTP, the Jina API, `requests` and BeautifulSoup are left out. Tag
  stripping and the main-region search (`robust_content_extractor.py`
  95-181) are replaced by the oracle `Pages`: for each strategy, the text its
  call would yield, or None when the status is not 200 or its own handler
  returned None.
- The outer `except` of `extract_content` is not modelled. It is unreachable
  in this model, because each strategy catches its own exceptions. An
  exception from the counters or from logging is not modelled either.
- The thread pool's concurrency is left out. `batch_extract` runs its tasks
  one after another. The unsynchronised `+=` on the shared counters, which
  can lose updates, is not modelled. The model shows instead that the final
  counters do not depend on completion order.
- BatchExtraction.BatchExtract: the `except` around `future.result()`,
  which stores None, is not modelled, because `extract_content` never raises
  in this model.
- BatchExtraction.BatchExtract: `max_workers=None` is not modelled. The
  parameter is an integer, and the pool's default width plays no part in
  the results.
- BatchExtraction.GatherResults: for a URL submitted more than once, it states
  only that the value is the result of one of its submissions. Which one
  depends on completion order, which is not modelled.
- QualityValidator.ValidateBatch: the input and the result are maps, so the
  result's key order, which follows `content_dict`'s insertion order
  (content_quality_validator.py:166-168), is not modelled.
- QualityValidator.Summarize: the distribution is a map, so its key order,
  which is the order in which each level is first seen
  (content_quality_validator.py:176-179), is not modelled.
- QualityValidator.ValidateContent: content is a string, so a `None`
  content, which `if not content` treats like the empty string
  (content_quality_validator.py:32), is not modelled.
- Floating point is left out. Success rates and means are exact rationals
  (`Ratio`), and `round(x, 2)` is not applied.
- PredictiveEngine.PredictMarketGrowth: `quality_score` is the exact
  rational, not the float. The growth-potential thresholds are still exact,
  because `x / 100 > 0.7` on floats holds exactly for x > 70 (and
  `> 0.4` for x > 40): correctly rounded division is monotone, and 70/100
  rounds to the same double as `0.7`.
- `_calculate_confidence` (float arithmetic with `round`) is left out, so
  `Predictions` has no confidence level.
- `sentiment_indicators`, which is always empty, is left out.
- Unicode text handling is limited to Latin-1:
  - `str.lower()` lowers ASCII and Latin-1 capitals only.
  - `\w` and `\b` are exact on Latin-1 only.
  - `\d` is an ASCII digit.
  - `re.IGNORECASE` compares characters by the same Latin-1 lowering
    (`Patterns.CaselessAt`). Python's engine also matches `ı` and `İ` with
    `i`, `ſ` with `s` and the Kelvin sign U+212A with `k`. That can change the
    Magnitude and Quantity alternatives' matches on such text.
  - The whitespace sets of `isspace`, `split`, `strip` and `splitlines` are
    Python's own.
- Url.Netloc: the bracketed-host validation and the NFKC netloc check of
  newer `urllib` versions are not modelled. Only the unmatched-bracket
  `ValueError` is.
- The predictive engine's session-file loading, the async orchestration,
  `_analyze_real_trends` and `_extract_market_insights` are left out.
  (`_analyze_real_trends` raises NameError on `re`, which that module only
  imports locally in another method.)
- The summary's `extractor_stats` field is not part of `Summarize`. It is
  modelled only in `SummarizeAsWritten`; see Findings.
- The Flask routes, the PDF and HTML report generators, the MCP client and
  all logging are left out.

## Findings

| source | as written | input that shows it | evidently intended | confidence | as-written member | corrected member |
|---|---|---|---|---|---|---|
| src/services/content_quality_validator.py:191-196 | `get_validation_summary` ends by calling `self.get_extractor_stats()`, which returns `self.stats.copy()`; `__init__` never sets `self.stats` | any call, e.g. `get_validation_summary({})` on `ContentQualityValidator()`, raises AttributeError | return the summary of the reports without the extractor's counters | not executed | QualityValidator.SummarizeAsWritten | QualityValidator.Summarize |

