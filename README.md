# geotext-api location pipeline, modelled in Dafny

geotext-api takes free-form text and returns the places it mentions, each resolved to coordinates
with a confidence label. This project models the algorithmic core of that pipeline and proves
properties of the model:

- **Cleanup of a language model's answer** (`Fences`, `Text`). The answer is trimmed. If it opens
  with a Markdown fence, every match of `/```json?\n?/g` is removed, then one trailing "```" is
  removed, and the result is trimmed again. `JSON.parse` is a parameter.
- **Staged extraction** (`Extraction`, from `src/lib/gemini.ts`). Gemini 2.0 Flash is tried first
  and Claude Haiku 4.5 is the fallback. The result says which model answered, or `"none"`.
- **Multi-source geocoding** (`Geocoding`, `geocodeLocation`). The usable coordinates come, in
  order, from the model's estimate, Google and Nominatim. With no source the result is the
  (0, 0) / `low` / no-sources sentinel. Otherwise it is their mean, rounded to six decimals. With
  two or more sources the label (`high`, `medium` or `low`) is set by how far the farthest point
  lies from the mean; a single source gives `medium` for a geocoder and `low` for the estimate
  alone.
- **Deduplicating merge** (`Dedup`). Resolved locations are merged by lower-cased name. A merged
  entry collects the mentions of every input with its name. Its point, confidence and sources are
  replaced only on a strict confidence upgrade.
- **The `POST /api/extract-locations` handler** (`ExtractRoute`). It validates the body, extracts
  with Claude Sonnet, geocodes the candidates in order, merges them, and answers 200, 400 or 500.
- **The analytics plan tier** (`Analytics`). The monthly request count gives the plan (Free,
  Starter or Pro), its limit and the usage percentage.

The external collaborators are parameters: the language-model calls are datatypes of their
outcomes, and the geocoders are functions `string -> Option<Coord>`. Each operation that the
source writes as step-by-step mutation is a method proved against a specification function:

- `CollectSources` builds the parallel source and coordinate lists by appending;
- `ResolveCandidates` is the `Promise.all` map;
- `Deduplicate` runs the `reduce` over an accumulator, with `FindByKey` as `find`;
- `Post` is the handler.

Where the code and the repository's own descriptions of it differ, the model follows the code:

- The comment at route.ts:118 and the `confidence_levels` text of the GET handler
  (route.ts:322-326) speak of agreement "within ~10km". The code compares the planar distance in
  degrees from the mean with 0.1 and 0.5. A tenth of a degree of longitude is not a fixed
  distance on the ground.
- `confidence_levels` calls `low` "Only LLM estimate or no verification possible". The code also
  answers `low`, at the mean of all points, when two geocoders lie 0.5 degrees or more from that
  mean (`DistantAnswersDisagree`).
- The model's own estimate is one of the "multiple sources": an estimate and one geocoder that
  agree give `high` (`LlmAndOneGeocoderAgreeing`).
- The repository test app/api/extract/__tests__/route.test.ts:217-229 expects 200 for an empty
  `text`. That test imports `../route`, the `/api/extract` route, which is not the
  `/api/extract-locations` handler modelled here. The modelled handler at route.ts:209-220
  rejects an empty `text` with 400, and so does the model.

## Model

| member | source | states |
|---|---|---|
| JsMath.Round | src/app/api/extract-locations/route.ts:134-135 | `Math.round` gives the integer within half of its argument, ties rounding up |
| JsMath.RoundOfInteger | src/app/api/extract-locations/route.ts:134-135 | `Math.round` of a whole number is that number |
| Text.TrimStart | src/lib/gemini.ts:37 | leading trim returns a suffix that starts with non-space, and everything dropped is white space |
| Text.TrimEnd | src/lib/gemini.ts:37 | trailing trim returns a prefix that ends with non-space, and everything dropped is white space |
| Text.Trim | src/lib/gemini.ts:37 | `trim()` leaves neither end white space and never lengthens the text |
| Text.TrimTrimmed | src/lib/gemini.ts:40 | trimming a text with no white space at either end returns it unchanged |
| Text.Lower | src/app/api/extract-locations/route.ts:263 | lower-casing maps `A`–`Z` to `a`–`z` and leaves every other character alone |
| Text.FoldCase | src/app/api/extract-locations/route.ts:263 | `toLowerCase()` keeps the length and lower-cases each character in place |
| Text.FoldCaseAt | src/app/api/extract-locations/route.ts:263 | position by position, the folded text is the lower-cased character |
| Text.FoldCaseIdempotent | src/app/api/extract-locations/route.ts:263 | lower-casing twice is lower-casing once |
| Fences.MatchLength | src/lib/gemini.ts:40 | a match of `/```json?\n?/` is 6 to 8 characters, and 8 exactly when "n" and then a line feed follow the tag |
| Fences.StripTags | src/lib/gemini.ts:40 | removing every match never lengthens the text |
| Fences.StripClosingFence | src/lib/gemini.ts:40 | `/```$/` removes exactly one trailing fence when there is one, and otherwise changes nothing |
| Fences.CleanResponse | src/lib/gemini.ts:37-41 | the cleaned answer is trimmed and no longer than the input; an answer that does not open with a fence is only trimmed |
| Fences.StripTagsCopiesPrefix | src/lib/gemini.ts:40 | the scan copies any prefix in which no match starts |
| Fences.TagFreeAppend | src/lib/gemini.ts:40 | text without a match stays so when followed by text with no "o" |
| Fences.TagFreeJoinAtNewline | src/lib/gemini.ts:40 | two texts without a match, the first ending in a line feed, have none when joined |
| Fences.StripTagsOfTagFree | src/lib/gemini.ts:40 | text with no match passes through the tag removal unchanged |
| Fences.CleanFenced | src/lib/gemini.ts:37-41 | a fenced answer that ends in a backtick skips the first trim |
| Fences.StripClosingOnOwnLine | src/lib/gemini.ts:40 | a closing fence on its own line is removed, and the line feed before it stays |
| Fences.TrimLineFed | src/lib/gemini.ts:40 | the final trim removes the line feed left before the closing fence |
| Fences.StripTagsAfterJsonLine | src/lib/gemini.ts:40 | in a "```json" fenced answer, only the opening line is removed by the tag pass |
| Fences.UnwrapJsonFence | src/lib/gemini.ts:37-41 | a tag-free, trimmed body in a "```json" fence is cleaned to exactly that body |
| Fences.StripTagsAfterBareLine | src/lib/gemini.ts:40 | a bare "```" opening line is not matched by the tag pattern |
| Fences.BareFenceKept | src/lib/gemini.ts:37-41 | a bare "```" opening fence survives the cleanup; only the closing fence goes |
| Extraction.LocationsOrEmpty | src/lib/gemini.ts:43 | `parsed.locations \|\| []`: a missing member gives the empty list, a present one itself |
| Extraction.ParseExtractionResponse | src/lib/gemini.ts:36-44 | parsing throws exactly when `JSON.parse` of the cleaned answer throws; otherwise it gives the parsed `locations` or an empty list |
| Extraction.ExtractWithGemini | src/lib/gemini.ts:50-69 | null exactly when the key is missing, the call throws or the parse throws; otherwise the parsed list |
| Extraction.ExtractWithHaiku | src/lib/gemini.ts:74-98 | a non-text block gives `[]`; it throws exactly when the call or the parse throws; text is parsed |
| Extraction.ExtractLocationsWithLlm | src/lib/gemini.ts:105-123 | `model_used` is one of three identifiers; Gemini exactly when Gemini gave a list; Haiku exactly when Gemini failed and Haiku returned; `"none"` with no locations otherwise |
| Extraction.GeminiAnswerWins | src/lib/gemini.ts:110-113 | a Gemini answer that parses, even an empty list, is returned whatever Haiku would do |
| Extraction.FallbackToHaiku | src/lib/gemini.ts:50-118 | with no key, or when Gemini throws, Haiku's parsed answer is returned as `claude-haiku-4.5` |
| Extraction.HaikuNonTextBlock | src/lib/gemini.ts:92-118 | a non-text Haiku block gives no locations, still credited to Haiku |
| Extraction.BothStagesFail | src/lib/gemini.ts:119-122 | when both stages fail, the result is empty from `"none"` and nothing escapes |
| Extraction.FencedAnswerParsesAsBody | src/lib/gemini.ts:36-44 | a body in a "```json" fence parses exactly as the bare body would |
| Geocoding.Collect | src/app/api/extract-locations/route.ts:82-103 | each source is present exactly when it answered (the estimate only with both coordinates nonzero); the lists have equal length, are in the order llm, google, nominatim, and each coordinate is the one its source reported |
| Geocoding.PushExtends | src/app/api/extract-locations/route.ts:86-103 | a conditional `push` pair (`Push`) only appends: both lists grow by one exactly when the source answered, by that source and its coordinate |
| Geocoding.PushReports | src/app/api/extract-locations/route.ts:86-103 | one conditional `push` pair keeps the lists parallel and in order, and adds the source exactly when it answered |
| Geocoding.CollectSources | src/app/api/extract-locations/route.ts:82-103 | the three conditional `push` pairs build exactly `Collect` |
| Geocoding.MaxSqDist | src/app/api/extract-locations/route.ts:118-122 | `Math.max` over the squared distances bounds every one of them and equals one of them |
| Geocoding.MeanTimesCount | src/app/api/extract-locations/route.ts:111-112 | the mean (`Mean`, the `reduce` sums divided by `coords.length`) times the number of points gives back each coordinate sum |
| Geocoding.Agreement | src/app/api/extract-locations/route.ts:116-128 | `high` iff every point is within 0.1 of the mean; `medium` iff not, but all are within 0.5; `low` iff some point is 0.5 or more away |
| Geocoding.Round6 | src/app/api/extract-locations/route.ts:134-135 | rounding to six decimals moves a value by at most half a millionth |
| Geocoding.Reconcile | src/app/api/extract-locations/route.ts:106-138 | no coordinates gives the (0, 0) / low / [] sentinel; otherwise the rounded mean with the sources kept; two or more sources are scored by agreement; one source gives `medium` for a geocoder and `low` for the estimate alone |
| Geocoding.Geocode | src/app/api/extract-locations/route.ts:106-124 | nothing found gives the (0, 0) / low / [] sentinel; `high` only with two or more sources |
| Geocoding.GeocodeSources | src/app/api/extract-locations/route.ts:82-108 | no sources exactly when nothing answered; the sources in consultation order, each present exactly when it answered |
| Geocoding.GeocodeConfidence | src/app/api/extract-locations/route.ts:111-131 | one source: `medium` for a geocoder, `low` for the estimate alone; two or more: `high` iff all points lie within 0.1 of the mean, `medium` iff within 0.5 but not 0.1, `low` otherwise |
| Geocoding.GeocodePoint | src/app/api/extract-locations/route.ts:111-136 | when found, the point is the mean of all contributing coordinates, the estimate included, rounded to six decimals |
| Geocoding.GeocodeLocation | src/app/api/extract-locations/route.ts:78-139 | asking both geocoders for the name and scoring gives exactly `Geocode` of their answers |
| Geocoding.SumsOfIdentical | src/app/api/extract-locations/route.ts:111-112 | the `reduce` sums over n copies of a point are n times its coordinates |
| Geocoding.MeanOfIdentical | src/app/api/extract-locations/route.ts:111-128 | identical points have themselves as mean and all lie within the `high` threshold |
| Geocoding.LlmAndOneGeocoderAgreeing | src/app/api/extract-locations/route.ts:86-124 | an estimate and a Google answer at the same nonzero point give `high` with sources [llm, google] |
| Geocoding.SumsOfPair | src/app/api/extract-locations/route.ts:111-112 | the sums over two points are their coordinate sums |
| Geocoding.NearbyAnswersAgree | src/app/api/extract-locations/route.ts:111-136 | Google (51.5007, -0.1246) and Nominatim (51.5008, -0.1245) give `high` at (51.50075, -0.12455) |
| Geocoding.DistantAnswersDisagree | src/app/api/extract-locations/route.ts:111-131 | Google (39.7817, -89.6501) and Nominatim (42.1015, -72.5898) give `low` |
| Dedup.Upgrades | src/app/api/extract-locations/route.ts:268-271 | the written upgrade test holds exactly when the incoming confidence ranks strictly higher |
| Dedup.Absorb | src/app/api/extract-locations/route.ts:265-276 | merging keeps name and description, appends the mentions, never lowers the confidence, and takes point, confidence and sources wholesale from the newcomer exactly on a strict upgrade |
| Dedup.Group | src/app/api/extract-locations/route.ts:262-264 | the inputs with a given folded name, in order; empty iff no input has that name |
| Dedup.FirstSeenKeys | src/app/api/extract-locations/route.ts:261-281 | never more names than inputs |
| Dedup.FirstSeenKeysAreKeys | src/app/api/extract-locations/route.ts:261-281 | the listed names are pairwise distinct, each has a nonempty group, and every input's folded name is listed |
| Dedup.FirstSeenKeysStep | src/app/api/extract-locations/route.ts:265-279 | an appended input keeps those three facts |
| Dedup.BestIndex | src/app/api/extract-locations/route.ts:268-276 | the first member of a group with the group's highest confidence |
| Dedup.Mentions | src/app/api/extract-locations/route.ts:266 | the concatenated `raw_mentions` of a group; when every member starts with one mention, one mention per member |
| Dedup.MergeGroup | src/app/api/extract-locations/route.ts:261-281 | a group collapses to its first member's name and description, all members' mentions, and the point, confidence and sources of its first best member |
| Dedup.GroupHeadIsFirst | src/app/api/extract-locations/route.ts:261-281 | the member a group's merge takes its name and description from is the input at the name's first occurrence |
| Dedup.Deduplicated | src/app/api/extract-locations/route.ts:261-281 | one entry per folded name |
| Dedup.DedupKeys | src/app/api/extract-locations/route.ts:261-281 | output entries have pairwise distinct folded names, one per input name, never more entries than inputs |
| Dedup.GroupSnoc | src/app/api/extract-locations/route.ts:262-264 | a new input joins exactly the group of its own name |
| Dedup.FirstSeenKeysSnoc | src/app/api/extract-locations/route.ts:265-279 | a new input adds its name at the end exactly when the name is new |
| Dedup.MentionsSnoc | src/app/api/extract-locations/route.ts:266 | the mentions of a grown group end with the newcomer's |
| Dedup.MergeSingleton | src/app/api/extract-locations/route.ts:277-279 | a name seen once is passed through unchanged |
| Dedup.MergeSnoc | src/app/api/extract-locations/route.ts:265-276 | collapsing a grown group is absorbing the newcomer into the collapsed group |
| Dedup.DedupStepNewAt | src/app/api/extract-locations/route.ts:277-279 | an input with a new name adds that name last; the earlier entries stay and the new last entry is the input |
| Dedup.DedupStepNew | src/app/api/extract-locations/route.ts:277-279 | an input with a new name is appended to the merged list |
| Dedup.AbsorbedEntry | src/app/api/extract-locations/route.ts:265-276 | an input with a known name leaves the names alone, and that name's entry absorbs the input |
| Dedup.UntouchedEntry | src/app/api/extract-locations/route.ts:265-276 | an input with a known name leaves every other entry unchanged |
| Dedup.DedupStepExisting | src/app/api/extract-locations/route.ts:265-276 | an input with a known name changes only that name's entry, which absorbs it |
| Dedup.FirstPos | src/app/api/extract-locations/route.ts:263 | the first position with a folded name is at most the length |
| Dedup.FirstPosIsFirst | src/app/api/extract-locations/route.ts:263 | a position found holds that name, and no earlier position does |
| Dedup.FirstPosSnoc | src/app/api/extract-locations/route.ts:261-281 | appending does not move a first occurrence |
| Dedup.SeenKeyOccurs | src/app/api/extract-locations/route.ts:261-281 | every listed name occurs in the input |
| Dedup.FirstPosKept | src/app/api/extract-locations/route.ts:261-281 | appending keeps the first position of every name already seen |
| Dedup.FirstPosOfNew | src/app/api/extract-locations/route.ts:277-279 | an input with a new name is its name's first occurrence |
| Dedup.UnseenIsAbsent | src/app/api/extract-locations/route.ts:263 | a name that is not listed does not occur |
| Dedup.OrderExtended | src/app/api/extract-locations/route.ts:277-279 | a name first seen after all listed ones may be appended without breaking first-seen order |
| Dedup.FirstSeenOrderSnoc | src/app/api/extract-locations/route.ts:277-279 | appending keeps the names in first-seen order |
| Dedup.FirstSeenOrder | src/app/api/extract-locations/route.ts:261-281 | the merged entries come in the order their names first occur |
| Dedup.UnseenKey | src/app/api/extract-locations/route.ts:262-264 | a name no input has is not listed |
| Dedup.DedupOfDistinct | src/app/api/extract-locations/route.ts:261-281 | a list whose folded names are already distinct is returned unchanged |
| Dedup.DedupIdempotent | src/app/api/extract-locations/route.ts:261-281 | merging the merged list changes nothing |
| Dedup.NeverDowngrades | src/app/api/extract-locations/route.ts:266-276 | every input has an entry with its name, at least its confidence and the mentions of all inputs with that name in order |
| Dedup.GroupContains | src/app/api/extract-locations/route.ts:262-264 | an input is in the group of its own name |
| Dedup.HighThenLowKeepsHigh | src/app/api/extract-locations/route.ts:265-276 | a `high` entry then a `low` one of the same name give one `high` entry with the first's point and sources and both mentions |
| Dedup.DedupSingleton | src/app/api/extract-locations/route.ts:277-279 | one input gives itself and its one name |
| Dedup.DedupSameKeyPair | src/app/api/extract-locations/route.ts:265-276 | two inputs with one folded name merge into the first absorbing the second |
| Dedup.FindByKey | src/app/api/extract-locations/route.ts:262-264 | `find` gives the first entry with the folded name, or none exactly when no entry has it |
| Dedup.MergeInto | src/app/api/extract-locations/route.ts:261-281 | one callback of the `reduce`, mutating the matching entry's fields, moves the accumulator from the merge of the prefix to the merge of the prefix plus the input |
| Dedup.Deduplicate | src/app/api/extract-locations/route.ts:261-281 | the `reduce` from the empty accumulator computes exactly `Deduplicated` |
| ExtractRoute.FailureText | src/app/api/extract-locations/route.ts:297 | a 500 carries the thrown `Error`'s message, or "Internal server error" |
| ExtractRoute.Validate | src/app/api/extract-locations/route.ts:209-233 | accepted exactly when `text` is a string of 1 to 100,000 characters; missing, non-string or empty gives input length 0 with the "Missing or invalid" error; too long gives its own length with the too-long error |
| ExtractRoute.ExtractWithSonnet | src/app/api/extract-locations/route.ts:141-199 | only the call itself can throw; a non-text or missing block, or an answer that does not parse, gives `[]`; a parsed answer gives its `locations` or `[]` |
| ExtractRoute.LlmEstimate | src/app/api/extract-locations/route.ts:243-245 | the estimate is passed on exactly when both coordinates are present and nonzero |
| ExtractRoute.ToLocation | src/app/api/extract-locations/route.ts:248-256 | a resolved location keeps the candidate's name and description, has the geocoded point, confidence and sources, and starts with its single raw mention |
| ExtractRoute.ResolveKeepsCandidate | src/app/api/extract-locations/route.ts:240-257 | the `map` callback (`Resolve`) keeps the candidate's name, description and single mention; no source gives the (0, 0) / low sentinel; `high` needs two or more sources |
| ExtractRoute.Resolved | src/app/api/extract-locations/route.ts:239-258 | the fan-out keeps the number of candidates |
| ExtractRoute.ResolvedAt | src/app/api/extract-locations/route.ts:239-258 | the fan-out holds at each position the candidate at that position, resolved |
| ExtractRoute.ResolvedPrefixStep | src/app/api/extract-locations/route.ts:239-258 | resolving one more candidate appends its resolution |
| ExtractRoute.GroupMentions | src/app/api/extract-locations/route.ts:255-266 | the mentions collected for a name are the raw mentions of the candidates with that folded name, in order |
| ExtractRoute.MergedMentions | src/app/api/extract-locations/route.ts:255-281 | each merged entry's mentions are exactly the raw mentions of the candidates with its name, in input order |
| ExtractRoute.ResolveCandidates | src/app/api/extract-locations/route.ts:239-258 | geocoding each candidate in turn gives exactly `Resolved` |
| ExtractRoute.ResolveOne | src/app/api/extract-locations/route.ts:240-257 | one candidate is geocoded under its own name with its usable estimate and turned into its location |
| ExtractRoute.Post | src/app/api/extract-locations/route.ts:202-302 | status is 200, 400 or 500; 400 exactly when the text is rejected, carrying the validation's length and error and nothing extracted; 500 exactly when the body cannot be read or the Sonnet call throws, carrying the thrown error's message or "Internal server error"; 200 with the text's length and the merge of the resolved candidates |
| Analytics.PlanFor | src/app/api/analytics/route.ts:68-73 | Pro iff the count is above 100,000; Starter iff in (10,000, 100,000]; Free iff at most 10,000; the limit is positive |
| Analytics.UsagePercentage | src/app/api/analytics/route.ts:82 | the percentage is within half a point of 100 · count / limit, and not negative |
| Analytics.UsageTieRoundsUp | src/app/api/analytics/route.ts:82 | 10,050 requests on Starter give 101: an exact half-point ratio rounds up |
| Analytics.PlanMonotone | src/app/api/analytics/route.ts:68-73 | more requests never give a lower plan |
| Analytics.PaidPlanAtLeastFullUsage | src/app/api/analytics/route.ts:68-82 | on Starter or Pro the usage percentage is at least 100 |
| Analytics.FreePlanPercentIsCount | src/app/api/analytics/route.ts:73-82 | on Free the usage percentage equals the request count |

## Left out

- The HTTP calls to Google and Nominatim and the Gemini and Anthropic SDK calls are parameters or
  outcome datatypes. The prompts, model parameters and `parseFloat` of the provider strings
  (src/lib/nominatim.ts, route.ts:29-75) are not part of this model.
- `JSON.parse` is an abstract function returning `Some` or `None`. A candidate whose fields have
  the wrong JSON types (a non-string name, say, which would make `toLowerCase` throw), or a
  truthy non-array `locations`, is not modelled.
- Floating point is left out: coordinates are reals, and `Math.round` is `floor(x + 0.5)` on
  reals. NaN and infinities do not arise.
- Analytics.UsagePercentage: the ratio is exact, so ties round up where doubles may not. For
  10,050 requests the model gives 101 (100.5 rounds up, `UsageTieRoundsUp`), while in JavaScript
  `10050 / 10000 * 100` is 100.49999999999999 and `Math.round` gives 100.
- Geocoding.MaxSqDist: `Math.sqrt` is not modelled. The squared distances are compared with 0.01
  and 0.25, which decides the same comparisons.
- Text.FoldCase: `toLowerCase` is modelled for ASCII letters only. Full Unicode case mapping is
  left out.
- Text.Trim: its contract states only that the result has trimmed ends and is no longer. That the
  result is the slice between the leading and trailing white space is stated on `TrimStart` and
  `TrimEnd`, not on `Trim`.
- String lengths are counted in characters, not in UTF-16 code units, so `text.length` of text
  outside the Basic Multilingual Plane is smaller here.
- `processing_time_ms` and the clock are left out of `Response`.
- Request parsing is folded into the `Body` and `TextField` datatypes: an unreadable or null body
  is `Unreadable`, and any falsy `text` is `Absent`.
- `Promise.all` concurrency is modelled only by its order-preserving result.
- ExtractRoute.ResolveCandidates: each geocoder is one function of the name shared by every
  candidate, so repeated lookups of the same name always agree in the model. The source makes a fresh
  network call per candidate (route.ts:92-99), and a failed or rate-limited call becomes `null`
  (route.ts:47-50, 71-74), so two candidates with one name may be geocoded differently there.
- The dedup list's entries are the resolved location objects themselves, so the source's in-place
  field updates also change those objects. Only the merged list is observable, so the model
  updates an entry value in a sequence and does not model that aliasing.
- The `geminiResult.length >= 0` test at gemini.ts:111 always holds for a list, so it is not
  modelled.
- The analytics SQL, authentication, API keys, Stripe billing, the React pages, and the other
  fields of the analytics response are outside this model.
