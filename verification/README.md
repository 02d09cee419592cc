# Drag'n Survey dashboard: a verified model of its core

The dashboard reads survey responses from the Drag'n Survey API and turns
them into one `DashboardData` record:
- totals and the completion rate;
- responses per day (the "velocity");
- per-question insights: option counts, averages and medians, text answers and their top words;
- the latest responses.

It serves that record through a snapshot cache and protects it with a
cookie-checking middleware and a login route.

This project models that core in Dafny and proves what the code promises.
The modules, one per file, are:

- `Wrappers`, `Text`, `Collections`, `Sorting`: the JavaScript behaviour the code relies on. This covers optional values, whitespace trimming, lowercasing, joining and number printing. It also covers the insertion order of `Map` and plain objects, and stable sorting.
- `Utils` (`src/lib/utils.ts`): `safePercentage`, `normalizeChoiceLabel`, `groupBy`, `average`, `median` and `topWords`.
- `Types` (`src/lib/types.ts`): the records.
- `Aggregation` (`src/lib/aggregation.ts`): `buildDashboardData`, `buildVelocity`, `buildQuestionInsights` and `formatAnswerValue`.
- `Client` (`src/lib/dragnSurveyClient.ts`): the rules of the API client:
  - URL normalisation and the rate-limit retry;
  - the question catalog and its one-minute cache;
  - respondent-to-response conversion and survey lookup.
- `Snapshots` (`src/lib/dashboard.ts`, with `fetchSurveyBundle`): which payload is built (live data, or mock data when the credentials are missing or the live fetch fails), and which dashboard is served, a stored snapshot or a new build.
- `Access` (`src/middleware.ts`, `src/app/api/auth/login/route.ts`): the path allowlist, the cookie check and the login decision.

Conventions:
- Numbers shown with one decimal are integer tenths. `Math.round(n / d)` is `(2n + d) / (2d)`. `IsRounded(n, d, r)` states that `r` is `n / d` rounded half up.
- Answer numbers are integers.
- Things outside the program are parameters:
  - date parsing (`parse`, and `parseDate` for the snapshot date);
  - `Number(text)` (`parseNum`, `None` when the result is not finite);
  - the clock (`now`, `stamp`, `updatedAt`);
  - every API fetch (a reply sequence, or a function from an id to the fetched record or `None` when the fetch threw).
- Code that updates state step by step is a method, proved equal to a specification function about which the lemmas are proved. This covers the loops of `groupBy`, `topWords`, `buildVelocity` and `buildQuestionInsights`, the page/component and respondent loops of the client, and the module-level questions cache (a class). The rest is functions.

## Model

| member | source | states |
|---|---|---|
| Utils.RoundDiv | src/lib/utils.ts:2 | the result is the quotient rounded half up, as `Math.round` rounds |
| Utils.SafePercentage | src/lib/utils.ts:1-2 | 0 for a zero total; otherwise `value/total` as a percentage rounded to one decimal; within [0, 100] when `0 <= value <= total` |
| Utils.NormalizeChoiceLabel | src/lib/utils.ts:4-5 | the result has no outer whitespace, no run of two whitespace characters and no uppercase letter |
| Utils.NormalizeContent | src/lib/utils.ts:4-5 | normalising keeps every non-whitespace character, in order, lower-cased; only whitespace is dropped or turned into single spaces |
| Utils.NormalizeIdempotent | src/lib/utils.ts:4-5 | normalising twice is normalising once |
| Utils.NormalizeOfNormalized | src/lib/utils.ts:4-5 | an already normalised label is left unchanged |
| Utils.GroupBy | src/lib/utils.ts:12-22 | buckets appear in first-seen key order; each bucket holds exactly the items with that key, in input order |
| Utils.SelectSize | src/lib/utils.ts:16-21 | a bucket's size is the number of items whose key it is |
| Utils.GroupSizesSum | src/lib/utils.ts:12-22 | the bucket sizes add up to the number of items |
| Utils.Average | src/lib/utils.ts:24-28 | 0 for no values; otherwise the mean rounded to one decimal, which lies between the minimum and the maximum |
| Utils.AverageWithin | src/lib/utils.ts:26-27 | a mean rounded to tenths lies between ten times the minimum and ten times the maximum |
| Utils.Ascend | src/lib/utils.ts:32 | the sorted copy is ascending and a permutation of the input |
| Utils.Median | src/lib/utils.ts:30-37 | 0 for no values; otherwise between the minimum and the maximum |
| Utils.MedianOfAscending | src/lib/utils.ts:33-36 | odd length: the middle element of the sorted copy; even length: the mean of the two middle elements, rounded to one decimal |
| Utils.MedianPermutation | src/lib/utils.ts:32 | the median does not depend on the order of the values |
| Utils.Scrub | src/lib/utils.ts:57 | each of `.,;:!?` becomes a space and every other character is kept |
| Utils.Tokens | src/lib/utils.ts:58 | splitting on whitespace runs gives non-empty tokens without whitespace |
| Utils.TokensContent | src/lib/utils.ts:58 | the tokens, one after the other, are exactly the text's non-whitespace characters in order |
| Utils.TokensSplit | src/lib/utils.ts:58 | whitespace separates tokens: when the second part starts with whitespace, the tokens of the whole are those of the first part, then those of the second |
| Utils.TokensOfWord | src/lib/utils.ts:58 | a non-empty run without whitespace is a single token |
| Utils.TokensOfSpaces | src/lib/utils.ts:58 | text made only of whitespace has no token |
| Utils.Words | src/lib/utils.ts:55-59 | every kept word is lowercase, longer than three characters, free of `.,;:!?` and not in the ten-word blacklist |
| Utils.AllWords | src/lib/utils.ts:54-63 | the same holds for the words of all sentences |
| Utils.RankWords | src/lib/utils.ts:65-68 | at most `limit` entries; each count is the word's number of occurrences; counts do not increase; words are distinct; a word left out occurs no more often than the last entry |
| Utils.RankingOrdered | src/lib/utils.ts:66 | the ranking is by non-increasing count |
| Utils.RankingComplete | src/lib/utils.ts:65 | every counted word appears in the ranking |
| Utils.TopIncludesFrequent | src/lib/utils.ts:65-67 | a word missing from a top list means the list is full, and the word is no more frequent than its last entry |
| Utils.TopWords | src/lib/utils.ts:39-69 | the nested loops filling the frequency record produce exactly `RankWords` of all the words |
| Aggregation.SortByTime | src/lib/aggregation.ts:33-37 | the sorted copy is a permutation, ordered by submission time (missing date = 0) |
| Aggregation.SortByTimeStable | src/lib/aggregation.ts:33-37 | responses with equal times keep their input order |
| Aggregation.CompletedCount | src/lib/aggregation.ts:40-42 | at most the number of responses |
| Aggregation.CompletionRate | src/lib/aggregation.ts:43 | within [0, 100]; 0 with no responses; otherwise completed/total as a percentage rounded to one decimal |
| Aggregation.DaySpan | src/lib/aggregation.ts:45-56 | the first-to-last distance in days, rounded, and at least 1 |
| Aggregation.AveragePerDay | src/lib/aggregation.ts:85 | responses per day rounded to one decimal, between 0 and the total |
| Aggregation.Prefix10 | src/lib/aggregation.ts:98 | the first ten characters (all of a shorter date) |
| Aggregation.DayKeys | src/lib/aggregation.ts:96-100 | one day key per dated response |
| Aggregation.DayKeysOrigin | src/lib/aggregation.ts:97-98 | every day key is the date prefix of some dated response |
| Aggregation.PointsFor | src/lib/aggregation.ts:104-108 | one point per day, carrying that day's count |
| Aggregation.BuildVelocity | src/lib/aggregation.ts:93-109 | the counting loop and sort produce exactly `Velocity` |
| Aggregation.VelocityAscending | src/lib/aggregation.ts:102-103 | days are strictly ascending |
| Aggregation.VelocityPoints | src/lib/aggregation.ts:96-108 | each point's day comes from a response, and its count is the number of responses that day, at least one |
| Aggregation.VelocityTotal | src/lib/aggregation.ts:93-109 | the point counts add up to the number of dated responses |
| Aggregation.AnswerIds | src/lib/aggregation.ts:121-123 | the question id of every answer, in order |
| Aggregation.ValuesFor | src/lib/aggregation.ts:130 | one value per answer to the question |
| Aggregation.FirstIndex | src/lib/aggregation.ts:123-129 | the position of the first answer to a question |
| Aggregation.Collect | src/lib/aggregation.ts:121-132 | bucket and fallback maps stay keyed alike |
| Aggregation.CollectKeys | src/lib/aggregation.ts:123-124 | buckets appear in first-answered order |
| Aggregation.RecordEffect | src/lib/aggregation.ts:123-130 | one answer appends its value to its own bucket only, opening it if new |
| Aggregation.CollectBuckets | src/lib/aggregation.ts:130 | a bucket holds every value given to its question, in order |
| Aggregation.CollectFallback | src/lib/aggregation.ts:125-128 | the fallback title and type come from the first answer to the question |
| Aggregation.FallbackCatalog | src/lib/aggregation.ts:136-144 | without declared questions: one question per answered id, in first-answered order, titled and typed from its first answer (`unknown` when untyped) |
| Aggregation.FallbackCatalogIds | src/lib/aggregation.ts:139-144 | the fallback ids are distinct, and exactly the answered ids |
| Aggregation.FallbackFromCollect | src/lib/aggregation.ts:139-144 | the catalog read off the fallback map is `FallbackCatalog` |
| Aggregation.NormalizeAll | src/lib/aggregation.ts:170-171 | each chosen string is matched by its normalised key |
| Aggregation.ChoicesFromKeys | src/lib/aggregation.ts:178-181 | with no declared choices, each counted key is its own choice and label |
| Aggregation.ChoiceStats | src/lib/aggregation.ts:183-190 | one option per listed choice: its label, its count (0 if never chosen) and its percentage |
| Aggregation.ExtraStats | src/lib/aggregation.ts:193-203 | one option per extra key, labelled by the key |
| Aggregation.HasKey | src/lib/aggregation.ts:194-195 | true exactly when the key is one of the listed choices' keys |
| Aggregation.CountChoices | src/lib/aggregation.ts:163-173 | the counting loop gives the tally of normalised strings, in first-seen order |
| Aggregation.ListOptions | src/lib/aggregation.ts:175-203 | the listing and appending loops produce exactly `OptionsFrom` |
| Aggregation.ChoiceOptions | src/lib/aggregation.ts:159-205 | the whole choice branch produces exactly `OptionsOf` |
| Aggregation.OptionsTotal | src/lib/aggregation.ts:163-203 | with distinct declared keys, the option counts add up to the number of chosen strings: every answer is counted once |
| Aggregation.OptionsListChoices | src/lib/aggregation.ts:175-190 | declared choices, or else the counted keys, come first, each with its count |
| Aggregation.OptionsListExtras | src/lib/aggregation.ts:193-203 | the remaining options are exactly the counted keys outside the listed choices, in first-seen order, with their counts |
| Aggregation.NumericValues | src/lib/aggregation.ts:207-209 | at most one number per value |
| Aggregation.NumericValuesOfNumbers | src/lib/aggregation.ts:208 | numbers pass through unchanged |
| Aggregation.NumericValuesConcat | src/lib/aggregation.ts:207-209 | the numbers of two runs of answers are the numbers of each, in order |
| Aggregation.NumericValuesOne | src/lib/aggregation.ts:207-209 | one answer gives its finite number or nothing; a number is kept as is, `undefined` is dropped |
| Aggregation.TextValues | src/lib/aggregation.ts:213-215 | exactly the non-empty string values are kept |
| Aggregation.TextValuesConcat | src/lib/aggregation.ts:213-215 | the texts of two runs of answers are the texts of each, in order |
| Aggregation.TextValuesOne | src/lib/aggregation.ts:213-215 | one answer gives its text exactly when it is a non-empty string |
| Aggregation.FreeTextNewestFirst | src/lib/aggregation.ts:212-217 | a later non-empty text answer goes to the front of the listed answers, any other answer leaves them unchanged, and the keywords are ranked over the list as served |
| Aggregation.FreeTextNoAnswers | src/lib/aggregation.ts:212-217 | without answers nothing is listed and the keywords are those of no words |
| Aggregation.InsightsOf | src/lib/aggregation.ts:148-221 | one insight per question, in order |
| Aggregation.QuestionInsights | src/lib/aggregation.ts:111-221 | one insight per ordered question, with its id, and a sample size equal to the number of answers to it |
| Aggregation.InsightsCoverAnswers | src/lib/aggregation.ts:136-150 | without declared questions, the sample sizes add up to the number of answers |
| Aggregation.CollectAnswers | src/lib/aggregation.ts:121-132 | the nested loops fill the two maps exactly as `Collect` |
| Aggregation.InsightOf | src/lib/aggregation.ts:149-220 | one question's insight, built branch by branch, equals `InsightOfValues` |
| Aggregation.BuildQuestionInsights | src/lib/aggregation.ts:111-222 | the whole function equals `QuestionInsights` |
| Aggregation.FormatNumberRoundTrip | src/lib/aggregation.ts:228 | a number is printed as decimal text that reads back as the same number |
| Aggregation.LastN | src/lib/aggregation.ts:66 | the last `n` elements, in order |
| Aggregation.FirstN | src/lib/aggregation.ts:72 | the first `n` elements |
| Aggregation.Previews | src/lib/aggregation.ts:72-75 | one preview per answer, in order |
| Aggregation.Newest | src/lib/aggregation.ts:65-67 | at most six responses, newest first: the i-th is the i-th from the end |
| Aggregation.LatestResponses | src/lib/aggregation.ts:65-76 | one entry per newest response, with at most three previews |
| Aggregation.NewestFirst | src/lib/aggregation.ts:65-67 | listed responses do not get newer down the list, and none left out is newer than one listed |
| Aggregation.BuildDashboardData | src/lib/aggregation.ts:28-91 | the builder equals `DashboardOf` |
| Aggregation.DashboardFigures | src/lib/aggregation.ts:39-91 | total is the response count; completed (status not partial) is at most the total; the rate is within [0, 100]; the velocity counts add up to the dated responses; the average per day is between 0 and the total; at most six latest responses |
| Text.JoinCons | src/lib/aggregation.ts:227 | joining two or more items gives the first item, the separator, then the join of the others |
| Text.JoinLength | src/lib/aggregation.ts:227 | a join is as long as its items together plus one separator between each two |
| Text.IntToStringRoundTrip | src/lib/aggregation.ts:228 | `toString` of an integer is well-formed decimal text that parses back to it |
| Text.IntToStringInjective | src/lib/aggregation.ts:228 | distinct numbers print differently |
| Text.Trim | src/lib/utils.ts:5 | the result has no leading or trailing whitespace |
| Text.TrimSlice | src/lib/utils.ts:5 | the trimmed text is one contiguous piece of the input, and only whitespace lies before and after it |
| Text.TrimContent | src/lib/utils.ts:5 | trimming removes no non-whitespace character |
| Sorting.SortStringsStrict | src/lib/aggregation.ts:102-103 | sorting distinct keys gives a strictly ascending order |
| Client.NormalizeBase | src/lib/dragnSurveyClient.ts:29-31 | the base ends with `/` and extends the original by at most that slash |
| Client.NormalizeBaseIdempotent | src/lib/dragnSurveyClient.ts:29-31 | normalising twice is normalising once |
| Client.NormalizeEndpoint | src/lib/dragnSurveyClient.ts:32-34 | exactly one leading `/` is removed, if there is one |
| Client.NormalizeEndpointOnce | src/lib/dragnSurveyClient.ts:32-34 | a doubled leading slash keeps one |
| Client.FetchJSON | src/lib/dragnSurveyClient.ts:25-70 | no more waits than the retry budget |
| Client.FetchJSONOutcome | src/lib/dragnSurveyClient.ts:50-66 | every wait follows a 429, the i-th wait is `500·(4 - retries + i)` ms; the result is the body of an OK reply, the thrown failure, or an API error carrying the status and body, which is a 429 only when the budget is spent |
| Client.DefaultWaits | src/lib/dragnSurveyClient.ts:54-58 | with the default budget the waits are at most 1000 ms then 1500 ms |
| Client.MapQuestionType | src/lib/dragnSurveyClient.ts:272-284 | never `multiple_choice`; `unknown` exactly for types outside the seven mapped ones |
| Client.ResolveValue | src/lib/dragnSurveyClient.ts:259-270 | a value changes exactly when the question is a choice or yes/no question and the value is a number `n` naming a non-empty label `choices[n-1]`; it then becomes that label |
| Client.ResolveChoiceIndex | src/lib/dragnSurveyClient.ts:264-270 | choice numbers are 1-based: the number `k + 1` resolves to the non-empty label at position `k`, whatever labels precede it |
| Client.AnswersFrom | src/lib/dragnSurveyClient.ts:249-293 | at most one answer per question entry |
| Client.AnswersFromKnown | src/lib/dragnSurveyClient.ts:251-291 | one answer per catalogued question, carrying the catalog's title and mapped type |
| Client.AnswersFromUnknown | src/lib/dragnSurveyClient.ts:252-257 | questions missing from the catalog give no answer |
| Client.AnswersFromConcat | src/lib/dragnSurveyClient.ts:251-292 | the answers of two runs of question entries are those of each, in order |
| Client.AnswersFromOne | src/lib/dragnSurveyClient.ts:252-291 | one entry gives the catalog-built answer when its question is known, and nothing otherwise |
| Client.ResponseOf | src/lib/dragnSurveyClient.ts:295-301 | keeps the id; complete or partial from `complete`; submitted at `updated_at`, or else `created_at`; started at `created_at` |
| Client.TransformRespondent | src/lib/dragnSurveyClient.ts:248-302 | the answer loop builds exactly `ResponseOf` |
| Client.FetchRespondents | src/lib/dragnSurveyClient.ts:233-244 | one slot per respondent id, in order, holding the fetched respondent or nothing |
| Client.Fetched | src/lib/dragnSurveyClient.ts:246-247 | as many respondents as successful fetches, exactly those |
| Client.ResponsesOf | src/lib/dragnSurveyClient.ts:246-302 | one response per fetched respondent, in order |
| Client.FailedFetchSkipped | src/lib/dragnSurveyClient.ts:240-247 | a failed fetch drops only its own respondent |
| Client.TransformAll | src/lib/dragnSurveyClient.ts:246-302 | the conversion of all respondents equals `ResponsesOf` |
| Client.StripTags | src/lib/dragnSurveyClient.ts:151-153 | the result is no longer than the input, and no `<` in it is followed by a `>` |
| Client.StripTagsOfNoTags | src/lib/dragnSurveyClient.ts:152 | text without tags is left unchanged |
| Client.StripTagsIdempotent | src/lib/dragnSurveyClient.ts:152 | stripping twice is stripping once |
| Client.StripTagsPlain | src/lib/dragnSurveyClient.ts:152 | text before the first `<` is kept unchanged |
| Client.StripTagsTag | src/lib/dragnSurveyClient.ts:152 | a `<` with a later `>` opens a tag that is removed up to the first `>` |
| Client.StripTagsUnclosed | src/lib/dragnSurveyClient.ts:152 | text without any `>` is kept unchanged, including its `<` characters |
| Client.CleanText | src/lib/dragnSurveyClient.ts:151-153 | cleaned text is tag-free and trimmed |
| Client.CleanTextContent | src/lib/dragnSurveyClient.ts:151-153 | cleaning keeps every non-whitespace character left after tag removal, and text without `<` is only trimmed |
| Client.TitleOf | src/lib/dragnSurveyClient.ts:151-173 | the title is the cleaned title when that is not empty, and the component id otherwise (a missing title counts as empty) |
| Client.ChoicesOf | src/lib/dragnSurveyClient.ts:167-170 | no choices without a choice list; otherwise one label per choice, in order, each the cleaned label or `""` when the label is absent, so always tag-free and trimmed |
| Client.CatalogOf | src/lib/dragnSurveyClient.ts:135-186 | the map is well formed |
| Client.CatalogEntries | src/lib/dragnSurveyClient.ts:155-176 | no `textZone`, `image`, `video` or `separator` component is catalogued, and every title is clean or the id |
| Client.CatalogKeys | src/lib/dragnSurveyClient.ts:155-176 | questions appear in first-seen order of the kept components |
| Client.CatalogLastWins | src/lib/dragnSurveyClient.ts:172-176 | a repeated id holds the data of its last kept component |
| Client.AddPage | src/lib/dragnSurveyClient.ts:146-182 | the component loop of one page extends the catalog exactly as `CatalogOf` |
| Client.BuildQuestionsMap | src/lib/dragnSurveyClient.ts:135-186 | the page and component loops build exactly `CatalogOf` of the fetched components |
| Client.QuestionsCache.constructor | src/lib/dragnSurveyClient.ts:15-23 | the cache starts empty with timestamp 0 |
| Client.QuestionsCache.FetchQuestionsMap | src/lib/dragnSurveyClient.ts:122-198 | a hit returns the cached map and changes nothing; otherwise the map is rebuilt and the cache re-stamped; afterwards the same survey hits exactly while less than a minute has passed since the stamp |
| Client.FindSurvey | src/lib/dragnSurveyClient.ts:211-213 | the first survey listing the collector (the empty id when unset), or none exactly when no survey lists it |
| Client.FetchCollectorData | src/lib/dragnSurveyClient.ts:200-318 | with no matching survey it fails and the cache is untouched; otherwise it returns the survey's details, and the responses of the fetched respondents converted against the cached catalog, which is the old catalog with its old timestamp on a cache hit and, on a miss, the catalog built from the survey's pages stamped with the clock read after the fetches |
| Snapshots.SurveyBundle | src/lib/dragnSurveyClient.ts:321-335 | missing credentials or a failed live fetch give the mock payload; otherwise the live survey and responses, with no question catalog |
| Snapshots.BuildFresh | src/lib/dashboard.ts:14-33 | the fresh dashboard carries the payload's survey id, its response count and the timestamp |
| Snapshots.OutageServesMock | src/lib/dragnSurveyClient.ts:321-335 | when the live fetch fails and no fresh snapshot is served, the mock dashboard is served as a fresh build and, with a snapshot store, saved |
| Snapshots.GetDashboard | src/lib/dashboard.ts:35-81 | a stored snapshot is served without building exactly when refresh is not forced, the store is configured and the snapshot is under fifteen minutes old. Otherwise the build is served. After a failed build a stored snapshot is served whatever its age; with none the build's own error is rethrown, and a fallback read that throws raises the read's error instead. A snapshot is saved exactly after a served build with the store configured |
| Snapshots.FirstReadIgnoredWhenNotConsulted | src/lib/dashboard.ts:41 | with refresh forced or no store, the first read has no effect |
| Snapshots.NotFreshFallsThrough | src/lib/dashboard.ts:42-62 | a failed, empty or stale first read acts as if the store was not consulted |
| Snapshots.StaleServedAfterFailure | src/lib/dashboard.ts:68-80 | after a failed build, any stored snapshot is served; with none, the build's error is rethrown; a fallback read that throws raises the read's error in place of the build's |
| Snapshots.DaysIgnored | src/lib/dashboard.ts:35-38 | the `days` option changes nothing |
| Snapshots.FreshnessBoundary | src/lib/dashboard.ts:48-49 | a snapshot 899 999 ms old is fresh, one 900 000 ms old is not |
| Access.EffectiveSecret | src/lib/env.ts:27 | the configured secret, or `default-secret-change-me` |
| Access.Middleware | src/middleware.ts:4-27 | a request passes exactly when the path is exempt or the cookie equals the raw secret (absent equals absent); otherwise it is redirected to `/login` |
| Access.ExemptExactAndPrefix | src/middleware.ts:6-12 | every continuation of `/_next`, `/static` and `/api/auth` is exempt; `/login` and `/favicon.ico` followed by anything are not |
| Access.MiddlewareFixed | src/middleware.ts:17-18 | the corrected check: the cookie must equal the secret the login route writes |
| Access.FixedAgreesWhenConfigured | src/middleware.ts:18 | with the secret set, the corrected and the written check agree |
| Access.AuthCookie | src/app/api/auth/login/route.ts:13-19 | the cookie holds the effective secret, is httpOnly, lax, on `/`, lasts seven days and is secure in production |
| Access.Login | src/app/api/auth/login/route.ts:5-48 | an unreadable body gives 500 "Erreur serveur". Otherwise the login succeeds (200 and the cookie) exactly when no credentials are configured or both fields match exactly. Any other request gets 401 "Identifiants incorrects" and no cookie |
| Access.MissingFieldRejected | src/app/api/auth/login/route.ts:24 | with credentials configured, a missing field fails |
| Access.NoFieldsLogin | src/app/api/auth/login/route.ts:7-40 | a parseable body with no string field logs in exactly when no credentials are configured, and is otherwise refused with 401 |
| Access.UnsetSecretAsWritten | src/middleware.ts:17-18 | with the secret unset, the cookie from a successful login is redirected and a request without a cookie passes |
| Access.LoginCookieAdmitted | src/app/api/auth/login/route.ts:26-32 | under the corrected check, a successful login's cookie passes on every path, and a missing cookie is redirected from every non-exempt path |

## Left out

- Network I/O is not modelled: `fetch`, the 15-second abort timer, the `delay` pauses, JSON decoding and the construction of the request URL with `new URL`. Each fetch is an input. The two fetches that open `fetchCollectorData`, for the collector and for the survey list, are taken as already done; their failure (a thrown error) is not modelled.
- `src/lib/mockData.ts` is not part of this model: the mock data are random and clock-dependent, so the mock payload is an input of `SurveyBundle`. The live bundle carries no question catalog, so the dashboard is built with an empty one.
- Snapshots.GetDashboard: a failed live fetch is not an error (`fetchSurveyBundle` catches it and returns the mock payload, which is then served and saved as a fresh build, see `OutageServesMock`); `BuildThrew` stands for a throw inside the mock path or `buildDashboardData`, whose causes the model does not derive.
- `src/lib/cache.ts` (the Supabase snapshot store) is not part of this model. Its reads and the save are inputs and outputs of `Snapshots.GetDashboard`. Snapshots are read under the collector id but saved under the survey id; the two reads are separate inputs, so this mismatch is not captured.
- `src/lib/env.ts` is reduced to its inputs: the raw secret, the configured username and password, and whether the snapshot store is configured.
- Date handling is not modelled: `new Date(...)` parsing, `Intl.DateTimeFormat` labels (velocity points have no `label`), and the current time are parameters. `buildDashboardData` reads the clock twice for the missing-date fallbacks; the model uses one `now` for both.
- Floating point is not modelled. Answer numbers are integers, so a fractional rating, a non-integer choice index, or `NaN` in a sort comparator cannot be expressed.
- Object key order is plain insertion order. JavaScript lists integer-like keys first; this affects the `topWords` frequency record, the `groupBy` result record (its keys may be numbers, so `Utils.GroupBy`'s first-seen key order is plain insertion order) and `Object.entries(respondent.questions)`.
- Lowercasing covers the ASCII letters only; there is no Unicode case folding. Whitespace is the character class of JavaScript's `\s` (ASCII space, tab to carriage return, and the Unicode space separators), taken as single UTF-16 code units.
- `Aggregation.NumberOf`: `Number()` of text is an input (`parseNum`); `Number(null)` is 0 and `Number(undefined)` is not finite. Other non-string values (booleans, objects) are not among the modelled answer values.
- `Aggregation.TextValues`: only string values are modelled; `typeof value === "string"` on other JavaScript values is covered only for the modelled answer kinds.
- `Client.FetchJSON` requires one reply per possible attempt. This is the model's way of supplying replies; the source imposes no such limit.
- Login bodies are reduced to `LoginBody`: only invalid JSON and a `null` body (whose destructuring throws) are `Unparseable`. A field that is absent or not a string is `None`, which, like `undefined` or a number under `===`, never equals a configured string; any other parseable value (`{}`, a number, an array) is `Credentials(None, None)`.
- The middleware's route `matcher` configuration is not modelled. The predicate is applied to every path.
- Utils.TopWords: the frequency record is a map with no inherited keys. In JavaScript `freq` is a plain `{}`, so for the word `constructor` the lookup `freq[word] ?? 0` finds the inherited `Object` function and `+ 1` stores a string, and `__proto__` is never stored as an own key. The model counts every word from zero.
- Utils.GroupBy: buckets are looked up in a map with no inherited keys. In JavaScript, `acc[key] ?? []` finds an inherited function for keys such as `constructor` or `toString`, and the `push` that follows throws a `TypeError`; `__proto__` replaces the record's prototype. The model groups these keys like any other.
- Aggregation.Prefix10: a character is one element of `string`. JavaScript's `slice(0, 10)` counts UTF-16 code units, so a date text with characters outside the Basic Multilingual Plane would be cut differently.
- Sorting.SortStringsStrict: strings are compared character by character. JavaScript's `a > b` compares UTF-16 code units, which orders characters outside the Basic Multilingual Plane differently. The same holds for `word.length > 3` in `Utils.TopWords`.
- All `console` logging is left out, and so are the UI components and the `/api/responses` route.

## Findings

| source | as written | input that shows it | evidently intended | confidence | as-written member | corrected member |
|---|---|---|---|---|---|---|
| src/middleware.ts:18 | the cookie is compared with the raw `AUTH_SECRET_TOKEN`, while login writes `env.auth.secretToken`, which defaults to `default-secret-change-me` (src/lib/env.ts:27) | `AUTH_SECRET_TOKEN` unset; a user logs in and sends `auth_token=default-secret-change-me` to `/`; another request to `/` carries no cookie | the middleware admits exactly the cookie that login hands out, and rejects a missing cookie | high (not executed) | Access.UnsetSecretAsWritten | Access.LoginCookieAdmitted |
