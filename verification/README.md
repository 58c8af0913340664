# Vizyon Haber news gateway and client logic, in Dafny

This project models the Turkish news site Vizyon Haber. Its backend is one
Express handler, `api/index.js`. The handler answers `GET /api/news` from a
one-hour cache. On a miss it calls three news providers (Currents,
NewsData.io, NewsAPI) behind per-provider daily quotas. It normalises their
records into one article shape, shuffles the merged list, and falls back to
three demo articles when nothing arrives.

The model also covers the pure logic of the React client:

- the per-endpoint request limiter of the axios client;
- next-prayer selection;
- home-page pagination and section filters;
- article-body assembly and paragraph splitting on the detail page;
- the carousels of the slider, hero banner and recipe card;
- the video page's index-based classification;
- the latest-news grid;
- the world-clock city search;
- the weather-code classification.

Everything is written as pure functions over immutable datatypes. Anything
from outside the process becomes an explicit parameter:

- time (`now`, a `clock` for the per-item `Date.now()` reads, and the
  `latency` after which the gateway's three provider calls settle);
- provider replies (a `World` of three `Upstream` outcomes);
- the random choices of the shuffle (an oracle `rand`);
- the fetch results of the client pages (`Option`, where `None` means the
  page's own `try` block caught an error). The home page fetches through
  `fetchNews` (web/src/services/newsApi.js:31-51), which catches every error
  itself and returns a one-article local page titled "Backend'e
  Bağlanılamadı". Through that service `None` therefore never arrives: a
  backend failure reaches the home page as `Some` of that single article,
  which is a short page, so `hasMore` becomes false and the feed ends.

JavaScript semantics are modelled explicitly wherever they matter:

- **`parseInt`**: leading whitespace, a sign, the `0x` prefix, and `NaN` as
  its own value (`Text.JsNum`).
- **Truthiness**: `x || fallback` over strings that may be missing.
- **`slice`**: negative and `NaN` ends.
- **`toLowerCase`**: including `İ`, which becomes `i` plus U+0307.
- **Regular expressions**: each one the code uses is a single
  left-to-right pass.

Files, one module each:

- `wrappers.dfy`: `Option`.
- `text.dfy`: trim, lower-case, includes, truthiness, `parseInt`, number
  rendering.
- `seqs.dfy`: slice, filter, subsequences.
- `slug.dfy`: `slugify`.
- `quota.dfy`: `canUseAPI` and the daily reset sweep.
- `articles.dfy`: the article record, the three adapters, the demo news.
- `shuffle.dfy`: `shuffleArray`.
- `gateway.dfy`: the cache, `fetchNewsHybrid`, the `/api/news` handler.
- `ratelimit.dfy`: the client request limiter.
- `prayer.dfy`: `getNextPrayer`.
- `home.dfy`: pagination, and the technology and world sections.
- `detail.dfy`: related news and the article body.
- `carousel.dfy`: wrap-around steps, and the news slider.
- `hero.dfy`: the hero banner.
- `recipe.dfy`: the daily recipe card.
- `video.dfy`: the video page.
- `grid.dfy`: the asymmetric news grid.
- `clock.dfy`: the city search.
- `weather.dfy`: the weather helpers.

Where the written description of the system and the code disagree, the model
follows the code:

- **Slugs.** A slug may be empty (a title such as `!!!`) or end in a hyphen,
  because the cut to 100 characters comes after the hyphen trim.
  `Slug.SlugShape` therefore promises neither.
- **Aggregation.** There is only the merge-all strategy. No race-to-first
  mode and no per-adapter timeout exist in the code.
- **Quota.** The quota is spent at the gate, before the upstream call, so a
  failed call still counts (`Gateway.HybridMissSpendsQuota`).
- **Missing fields.** The adapters leave `title`, `content`, `url` and
  `publishedAt` missing when the provider omits them, so these are `Option`
  fields of `Articles.Article`.
- **Page size.** `pageSize` is clamped only from above.
- **Content markers.** The client removes `[+N chars]` markers with one
  regex pass. A marker nested inside another survives that pass
  (`Detail.NestedMarkerSurvives`). "No marker remains" is therefore proved
  only in the form `Detail.StripMarkersFixes`: the pass leaves a text
  unchanged exactly when it holds no marker.
- **Weather.** `getWeatherEmoji` gives drizzle (3xx) and rain (5xx) the same
  glyph, so they are one class.

## Model

| member | source | states |
|---|---|---|
| Text.Trim | web/src/app/routes/NewsDetail.jsx:169 | the result has no whitespace at either end and a trimmed text is left as it is |
| Text.TrimStart | web/src/app/routes/NewsDetail.jsx:185 | only leading whitespace is dropped, and the rest is a suffix of the input |
| Text.TrimEnd | web/src/app/routes/NewsDetail.jsx:185 | only trailing whitespace is dropped, and the rest is a prefix of the input |
| Text.LowerChar | api/index.js:102 | an ASCII capital becomes its small letter; a code point with no lower-case mapping is kept; a mapped one changes; nothing in the result has a mapping left |
| Text.Lower | api/index.js:102 | the lowered text is at least as long as the input and at most twice as long |
| Text.LowerConcat | web/src/app/components/EnhancedClock.jsx:73-74 | lowering works code point by code point: the lowering of `a + b` is the lowerings laid end to end |
| Text.LowerKeeps | web/src/app/components/EnhancedClock.jsx:73-74 | text with no capital (nothing to lower) is its own lower case |
| Text.LowerIdempotent | web/src/app/routes/Home.jsx:142-149 | lowering twice is lowering once |
| Text.Contains | web/src/app/routes/NewsDetail.jsx:171 | `s.includes(t)`: `t` occurs in `s` at some index (a predicate; `Detail.ContainsTail` and `Detail.ContainsEmpty` state its cases) |
| Text.Either | api/index.js:194 | `a \|\| b` is `a` when `a` is a non-empty string, otherwise `b` |
| Text.Or | api/index.js:155 | `a \|\| "literal"` is the string when it is non-empty, otherwise the literal |
| Text.First | api/index.js:157 | `list?.[0]` is present exactly when the list is non-empty, and is its head |
| Text.NatToString | api/index.js:153 | the decimal rendering of a number is a non-empty string of digits |
| Text.DecimalRoundTrip | api/index.js:153 | reading the rendered digits back gives the number |
| Text.DigitRun | api/index.js:389 | the digit run is the longest prefix of digits |
| Text.NumToString | api/index.js:309 | a rendered number has no hyphen after its first character |
| Text.ParseNonNegative | api/index.js:389 | `parseInt` of a string of digits is their decimal value |
| Text.ParseNegative | api/index.js:389 | `parseInt` of a minus sign and digits is the negated value |
| Text.ParseDigitsThenText | api/index.js:389 | `parseInt` reads the leading digits and ignores the text after them |
| Text.ParseNumToString | api/index.js:309 | parsing the rendering of any number, NaN included, gives the number back |
| Text.NumToStringInjective | api/index.js:309 | two numbers with the same rendering are equal |
| Text.SplitAtHyphen | api/index.js:309 | two texts `a-b`, `c-d` with hyphen-free `a`, `c` are equal only when the halves are |
| Text.MinNum | api/index.js:389 | `Math.min(x, bound)` is NaN exactly for NaN, otherwise `x` or the bound and never above it |
| Text.ParseInt | api/index.js:389-390 | text that, after leading whitespace, starts with neither a digit nor a sign parses as NaN; the digit cases are `Text.ParseNonNegative`, `Text.ParseNegative` and `Text.ParseDigitsThenText` |
| Seqs.Prefix | api/index.js:290 | `slice(0, k)` has `min(k, len)` elements, the first ones of the list |
| Seqs.Slice | web/src/app/components/HeroBanner.jsx:120 | `slice(a, b)` is the elements between the clamped bounds |
| Seqs.SliceTo | api/index.js:290 | `slice(0, end)` treats NaN as 0 and counts a negative end back from the length |
| Seqs.Filter | web/src/app/routes/Home.jsx:141-144 | every element kept passes the test and comes from the input; every passing element of the input is kept; no more elements than the input |
| Seqs.FilterCounts | web/src/app/routes/Home.jsx:141-144 | each passing value is kept exactly as often as it occurs, each failing one never: the multiset of the filter is the passing part of the input's |
| Seqs.FilterIsSubsequence | web/src/app/routes/Home.jsx:141-144 | `filter` keeps the order of the input |
| Seqs.FilterConcat | api/index.js:343 | filtering a concatenation filters each part |
| Seqs.FirstKFilterSpec | web/src/app/routes/Home.jsx:141-144 | `filter(p).slice(0, k)` holds at most k passing elements in order, and every passing element with fewer than k before it |
| Slug.Fold | api/index.js:94-100 | each Turkish letter of the table maps to an ASCII base letter and every other character to itself |
| Slug.FoldAll | api/index.js:98-101 | the table is applied to every character and the length is kept |
| Slug.DropSeparators | api/index.js:103 | exactly the leading run outside [a-z0-9] is dropped: every dropped character is outside it, the rest is a suffix that starts with a slug character |
| Slug.Hyphenate | api/index.js:103 | each run outside [a-z0-9] becomes one hyphen, so the result is slug text with no double hyphen; `Slug.HyphenateRun` and `Slug.HyphenateSplit` pin its content |
| Slug.HyphenateRun | api/index.js:103 | a whole run of characters outside [a-z0-9] becomes exactly one hyphen |
| Slug.HyphenateSplit | api/index.js:103 | a cut that does not fall inside a run splits the replacement: hyphenating `a + b` hyphenates each part, so with `Slug.HyphenateRun` and `Slug.HyphenateKeepsSlugChars` every run becomes one hyphen and every slug character is kept in order |
| Slug.StripLeadingHyphens | api/index.js:104 | exactly the leading hyphens are removed: every dropped character is a hyphen, the rest is a suffix that does not start with one |
| Slug.StripTrailingHyphens | api/index.js:104 | exactly the trailing hyphens are removed: every dropped character is a hyphen, the rest is a prefix that does not end with one |
| Slug.StripHyphens | api/index.js:104 | the result is the input with hyphens only cut from its two ends, and neither starts nor ends with a hyphen |
| Slug.Slugify | api/index.js:92-93 | a missing or empty title gives `haber` |
| Slug.SlugShape | api/index.js:92-106 | a slug is at most 100 characters of [a-z0-9-], with no leading hyphen and no double hyphen |
| Slug.SlugifyIsSlugText | api/index.js:92-106 | every slug, the fallback included, is slug text of at most 100 characters |
| Slug.TurkishLetterActsAsBase | api/index.js:94-102 | replacing a Turkish letter by its base letter does not change the slug |
| Slug.CleanTitleIsItsOwnSlug | api/index.js:98-105 | a title made only of [a-z0-9] is its own slug, cut to 100 characters |
| Quota.Initial | api/index.js:32-36 | at start every counter is 0 with a reset one day later, within the ceilings |
| Quota.Refresh | api/index.js:114-117 | an overdue record restarts at 0 with a reset one day after now; any other record is kept |
| Quota.CanUse | api/index.js:109-126 | after the pending reset, a call is allowed exactly when the count is below the limit, and only an allowed call adds one |
| Quota.TryConsume | api/index.js:109-126 | only the named provider's record changes, and every counter stays within its ceiling |
| Quota.Sweep | api/index.js:39-48 | exactly the overdue providers are reset; the others keep their records |
| Quota.SweepIsInvisibleToGate | api/index.js:39-48 | a sweep at the moment of a call changes neither the decision nor the record |
| Quota.WindowAdmitsUpToLimit | api/index.js:119-125 | within one reset window exactly `limit - count` further calls are admitted, then every call is refused |
| Quota.ResetAdmitsAgain | api/index.js:114-125 | once the reset time has passed the next call is admitted with count 1 |
| Articles.FromCurrents | api/index.js:152-164 | the Currents record is mapped field by field, each missing field getting its default, the slug is the title's and `published` is copied unchanged as `publishedAt` |
| Articles.FromNewsData | api/index.js:190-202 | the NewsData.io record is mapped with content falling back to the description, the author to the first creator, then the source id, and `pubDate` copied unchanged as `publishedAt` |
| Articles.FromNewsApi | api/index.js:228-240 | the NewsAPI record is mapped with category always Gündem, the author falling back to the source name and `publishedAt` copied unchanged |
| Articles.FromCurrentsList | api/index.js:152 | the reply is mapped element by element with the element's index |
| Articles.FromNewsDataList | api/index.js:190 | the reply is mapped element by element with the element's index |
| Articles.FromNewsApiList | api/index.js:228 | the reply is mapped element by element with the element's index |
| Articles.ArticleIdInjective | api/index.js:153 | two ids with the same prefix are equal only for the same time and index |
| Articles.ArticleId | api/index.js:153 | the id starts with the provider prefix; `Articles.ArticleIdInjective` shows the stamp and index are recoverable |
| Articles.CurrentsIdsDistinct | api/index.js:153 | the articles of one Currents reply have pairwise distinct ids |
| Articles.NewsDataIdsDistinct | api/index.js:191 | the articles of one NewsData.io reply have pairwise distinct ids |
| Articles.NewsApiIdsDistinct | api/index.js:229 | the articles of one NewsAPI reply have pairwise distinct ids |
| Articles.GetDemoNews | api/index.js:247-291 | the demo list has at most 3 articles: `min(count, 3)` for a non-negative count, `3 + count` (at least 0) for a negative one as `slice` counts from the end, none for NaN |
| Articles.DemoNewsArePrefix | api/index.js:290 | the fallback is always a leading part of the fixed demo list |
| Articles.DemoArticles | api/index.js:247-288 | three demo articles, from source DEMO, published now, an hour ago and two hours ago |
| Articles.DemoArticlesComplete | api/index.js:248-288 | the demo articles have every default field filled and distinct ids |
| Shuffle.Swap | api/index.js:302 | the swap exchanges two positions and leaves every other one |
| Shuffle.SwapPermutes | api/index.js:302 | a swap keeps the multiset of elements |
| Shuffle.ShuffleFromPermutes | api/index.js:300-303 | the loop from any index down keeps the multiset of elements |
| Shuffle.ShuffledPermutes | api/index.js:298-305 | the shuffle is a permutation: same length, same multiset |
| Shuffle.Shuffled | api/index.js:298-305 | the reference shuffle keeps the length; `Shuffle.ShuffledPermutes` shows it is a permutation |
| Shuffle.ShuffleArray | api/index.js:298-305 | the loop over a copy computes the reference shuffle, a permutation of the input |
| Shuffle.ShuffleKeepsAbove | api/index.js:300-303 | steps below a position never move the element at that position |
| Shuffle.LastIsOracleChoice | api/index.js:300-302 | the last position ends up holding the element the first random choice picked |
| Gateway.Lookup | api/index.js:312 | a live entry is returned and kept; a dead one is reported missing and removed; no other key changes |
| Gateway.Live | api/index.js:25-26 | an entry is live until its expiry time; `Gateway.Lookup` and `Gateway.Expire` state what a live and a dead entry do |
| Gateway.Store | api/index.js:366 | the list is stored live for the TTL under the key; no other key changes |
| Gateway.Expire | api/index.js:25-29 | the periodic check removes exactly the expired entries |
| Gateway.ExpireIsInvisible | api/index.js:25-29 | the periodic check never changes what a lookup at the same moment finds |
| Gateway.CacheKeyInjective | api/index.js:309 | two different queries never share a cache key |
| Gateway.CacheKey | api/index.js:309 | the key starts with `news-`; `Gateway.CacheKeyInjective` shows distinct queries get distinct keys |
| Gateway.Guard | api/index.js:134 | an unset API key fails before the quota gate, so it spends nothing |
| Gateway.FetchCurrents | api/index.js:133-168 | the Currents adapter answers exactly for an `ok` reply with a news list, the mapped list; the quota is the guard's |
| Gateway.FetchNewsData | api/index.js:171-206 | the NewsData.io adapter answers exactly for a `success` reply with results; the quota is the guard's |
| Gateway.FetchNewsApi | api/index.js:209-244 | the NewsAPI adapter answers exactly for an `ok` reply with articles; the quota is the guard's |
| Gateway.CallAll | api/index.js:325-340 | after the three calls every provider's record is the one its own guard leaves |
| Gateway.Respond | api/index.js:343-380 | with any articles the response is a permutation of all of them, stored under the key with the counts until the settle time plus the TTL; with none it is the demo list dated at the settle time, uncached |
| Gateway.FetchNewsHybrid | api/index.js:307-381 | a live cache entry is returned as cached with no provider called; otherwise the providers are called at the request time and the result is finished at the time they settle |
| Gateway.Settled | api/index.js:340 | the clock once `Promise.all` has settled is never earlier than the request time |
| Gateway.HybridMissSpendsQuota | api/index.js:124 | a miss spends each provider's quota whether or not its call then succeeds |
| Gateway.RepeatWithinTtlIsCached | api/index.js:312-366 | a repeat of a successful request up to the TTL after its provider calls settled is answered from the cache with the same list and no state change |
| Gateway.FanOutComplete | api/index.js:155-163 | every merged article has its defaults filled |
| Gateway.Merged | api/index.js:343 | the merge holds exactly the articles of the three lists, as many as they hold together |
| Gateway.PermutationKeepsComplete | api/index.js:363 | shuffling keeps every article complete |
| Gateway.HybridServesComplete | api/index.js:307-381 | whatever is served or cached has every default field filled |
| Gateway.QueryLimit | api/index.js:388-389 | the page size defaults to 10, is NaN exactly when parsing fails, and is capped at 20 |
| Gateway.QueryPage | api/index.js:388-390 | the page defaults to 1 and is otherwise `parseInt` of the query |
| Gateway.UsageTextReadsBack | api/index.js:402-404 | the `count/limit` text reads back as the count |
| Gateway.UsageText | api/index.js:402-404 | the `count/limit` usage text (a rendering; `Gateway.UsageTextReadsBack` states that the count reads back) |
| Gateway.Reply | api/index.js:396-407 | the reply is a success carrying the articles, the cache flag, the source, the message of the outcome and the three `count/limit` texts |
| Gateway.Message | api/index.js:406-408 | the message names the cache for a cached answer and otherwise the source |
| Gateway.NewsEndpoint | api/index.js:386-409 | the endpoint passes the clamped query on and replies with success, the articles, cache flag and source, the message of the outcome, and the three `count/limit` usage texts of the quotas after the call |
| Gateway.DemoFallbackSize | api/index.js:352-355 | the demo fallback for a `pageSize` holds 3 articles when it is absent, `min(n, 3)` for a parsed n >= 0, `3 + n` (at least 0) for a negative n, so -1 gives two, and none for NaN |
| RateLimit.Request | web/src/services/api.js:24-38 | new endpoint or closed window: accepted with count 1 at now; open full window: refused, unchanged; open window: accepted, count plus one, same timestamp |
| RateLimit.RequestPreservesValid | web/src/services/api.js:24-38 | every count stays between 1 and 5 and other endpoints are never touched |
| RateLimit.OpenWindowAdmits | web/src/services/api.js:27-32 | inside an open window requests are admitted until the count reaches 5 |
| RateLimit.AtMostFivePerWindow | web/src/services/api.js:5-6 | within one second of a window's first request exactly `min(n, 5)` requests pass |
| RateLimit.Cleanup | web/src/services/api.js:77-84 | exactly the entries older than five minutes are deleted; the rest are kept |
| RateLimit.CleanupIsInvisible | web/src/services/api.js:77-84 | cleanup never changes the decision or the entry of the next request |
| Prayer.Times | web/src/services/prayer.js:93-100 | the six times in the fixed order, İmsak first |
| Prayer.ColonAt | web/src/services/prayer.js:103 | the index of the first colon, with no colon before it |
| Prayer.HourPart | web/src/services/prayer.js:103 | `split(':')[0]`; `Prayer.SplitAtColon` states it is the input up to its first colon |
| Prayer.MinutePart | web/src/services/prayer.js:103 | `split(':')[1]`; `Prayer.SplitAtColon` states when it is missing and what it holds |
| Prayer.SplitAtColon | web/src/services/prayer.js:103 | the hour part is a colon-free prefix followed by a colon or the end; the minute part is missing exactly when there is no colon, and otherwise is the colon-free text after the first colon, up to the next colon or the end |
| Prayer.Combine | web/src/services/prayer.js:104 | `h * 60 + m` is a number exactly when both parts are, NaN otherwise |
| Prayer.MinuteOfDay | web/src/services/prayer.js:103-104 | a time without a colon gives NaN |
| Prayer.MinuteOfDayReadsClock | web/src/services/prayer.js:103-104 | a time written `H:M` with non-empty digit runs, leading zeros included, is minute `H*60 + M` of the day |
| Prayer.PaddedTimeReads | web/src/services/prayer.js:133-134 | the zero-padded fallback time `05:30` is minute 330 |
| Prayer.RemainingTextReadsBack | web/src/services/prayer.js:115 | the remaining text leads with the hours when there are any, otherwise with the minutes |
| Prayer.RemainingText | web/src/services/prayer.js:115 | the remaining text ends in ` dk`; `Prayer.RemainingTextReadsBack` reads its leading number back |
| Prayer.Minutes | web/src/services/prayer.js:102-104 | the minute of the day of each of the six prayers |
| Prayer.FindNext | web/src/services/prayer.js:102-106 | the loop finds the first prayer strictly later than now, or reports that none is |
| Prayer.IsNextUnique | web/src/services/prayer.js:102-106 | the next prayer is unique |
| Prayer.GetNextPrayer | web/src/services/prayer.js:89-127 | the first later prayer with whole hours and minutes left, or tomorrow's İmsak with nothing left and `Yarın` |
| Prayer.Tomorrow | web/src/services/prayer.js:121-127 | when nothing is left today the answer is the first prayer of the list, İmsak, with nothing remaining and `Yarın` |
| Home.LoadNews | web/src/app/routes/Home.jsx:75-102 | a loaded first page becomes the items, page 1, more exactly when it is full; a failure only clears the loading flag (a backend failure reaches this page as a one-article page through `fetchNews`, not as a failure) |
| Home.StartLoadMore | web/src/app/routes/Home.jsx:105-110 | nothing is requested while loading or when exhausted; otherwise the next page is requested |
| Home.LoadMore | web/src/app/routes/Home.jsx:105-137 | a call while loading or after the end changes nothing; otherwise a non-empty page is appended and counted, an empty one ends the feed |
| Home.FinishLoadMore | web/src/app/routes/Home.jsx:118-137 | a non-empty page is appended and counted; an empty one ends the feed; a failure changes nothing else (through `fetchNews` a backend failure arrives as a one-article page, which ends the feed) |
| Home.InFlightGuard | web/src/app/routes/Home.jsx:106 | a second load while one is in flight changes nothing |
| Home.ShortPageEndsFeed | web/src/app/routes/Home.jsx:122 | after a short page further loads do nothing |
| Home.LoadMoreAppends | web/src/app/routes/Home.jsx:118-122 | loading more keeps every shown article in order and appends the new ones |
| Home.FullPagesCount | web/src/app/routes/Home.jsx:118-122 | after n full pages the feed shows `20 * page` articles |
| Home.TechSection | web/src/app/routes/Home.jsx:141-144 | at most 8 technology articles in feed order, including every one with fewer than 8 before it |
| Home.WorldSection | web/src/app/routes/Home.jsx:146-150 | at most 12 world or general articles in feed order, including every one with fewer than 12 before it |
| Home.Tech | web/src/app/routes/Home.jsx:141-144 | the technology section (its contract is `Home.TechSection`) |
| Home.World | web/src/app/routes/Home.jsx:146-150 | the world section (its contract is `Home.WorldSection`) |
| Home.IsTech | web/src/app/routes/Home.jsx:141-144 | the technology test; `Home.TechSection` states the section it selects |
| Home.IsWorld | web/src/app/routes/Home.jsx:146-150 | the world or general test; `Home.WorldSection` states the section it selects |
| Detail.RelatedSpec | web/src/app/routes/NewsDetail.jsx:23-25 | at most three stored articles of the same category and another slug, in stored order, and every such article with fewer than three before it |
| Detail.Related | web/src/app/routes/NewsDetail.jsx:22-25 | the related list (its contract is `Detail.RelatedSpec`) |
| Detail.MarkerLen | web/src/app/routes/NewsDetail.jsx:167 | a recognised marker opens with `[+` and a digit and closes with `]` |
| Detail.MarkerRecognised | web/src/app/routes/NewsDetail.jsx:167 | every `[+digits spaces chars]` is recognised whole |
| Detail.BlockedMarker | web/src/app/routes/NewsDetail.jsx:167 | a `[` after the digits and spaces stops the marker |
| Detail.StripMarkersFixes | web/src/app/routes/NewsDetail.jsx:167 | the pass leaves a text unchanged exactly when no marker starts in it |
| Detail.StripMarkers | web/src/app/routes/NewsDetail.jsx:167 | one marker pass never lengthens the text; `Detail.StripMarkersFixes` and `Detail.StripPassesPlain` say what it keeps |
| Detail.StripPassesPlain | web/src/app/routes/NewsDetail.jsx:167 | text without `[` passes through unchanged |
| Detail.TrailingMarkerRemoved | web/src/app/routes/NewsDetail.jsx:167 | a marker appended to plain content is removed |
| Detail.MarkerThenPlain | web/src/app/routes/NewsDetail.jsx:178 | a marker followed by plain text leaves just the text |
| Detail.NestedMarkerSurvives | web/src/app/routes/NewsDetail.jsx:178 | removing an inner marker can join an outer one, which then remains |
| Detail.DropFinalEllipsis | web/src/app/routes/NewsDetail.jsx:168 | a final ellipsis is dropped and everything before it kept; a text that does not end in one is left as it is |
| Detail.EllipsesToStops | web/src/app/routes/NewsDetail.jsx:179 | no ellipsis remains and the text never grows; `Detail.EllipsesSplit`, `Detail.EllipsisRunToStop` and `Detail.NoEllipsisUnchanged` pin the content |
| Detail.EllipsesSplit | web/src/app/routes/NewsDetail.jsx:179 | a cut that does not fall inside a run of ellipses splits the replacement: the result for `a + b` is the results for `a` and `b` laid end to end |
| Detail.EllipsisRunToStop | web/src/app/routes/NewsDetail.jsx:179 | a whole run of ellipses becomes exactly one full stop |
| Detail.NoEllipsisUnchanged | web/src/app/routes/NewsDetail.jsx:179 | a text without ellipses is left as it is |
| Detail.Combined | web/src/app/routes/NewsDetail.jsx:157-174 | the cleaned content is appended after a blank line exactly when it is present, different, non-empty and not already in the summary |
| Detail.CleanContent | web/src/app/routes/NewsDetail.jsx:166-169 | the cleaned content is trimmed and no longer than the content |
| Detail.ContentNeverLost | web/src/app/routes/NewsDetail.jsx:165-173 | content different from the summary always ends up in the text |
| Detail.FullText | web/src/app/routes/NewsDetail.jsx:177-180 | the body text is trimmed and holds no ellipsis; `Detail.FullTextOfSummary` and `Detail.FullTextAppendsContent` give it exactly for clean inputs |
| Detail.FullTextOfSummary | web/src/app/routes/NewsDetail.jsx:165-180 | a trimmed summary without markers or ellipses, with no content to add, is its own body text |
| Detail.FullTextAppendsContent | web/src/app/routes/NewsDetail.jsx:165-180 | a clean, non-empty summary whose content adds clean text: the body text is the summary, a blank line and the cleaned content |
| Detail.TrimKeepsAbsent | web/src/app/routes/NewsDetail.jsx:180 | trimming never adds a character |
| Detail.FirstBlankLine | web/src/app/routes/NewsDetail.jsx:184 | the first index where a blank line starts |
| Detail.SplitBlankLines | web/src/app/routes/NewsDetail.jsx:184 | the split has at least one piece and no piece contains a blank line; `Detail.SplitJoin` shows it undoes a join |
| Detail.JoinBlankLines | web/src/app/routes/NewsDetail.jsx:184 | pieces joined by blank lines start with the first piece |
| Detail.SplitJoin | web/src/app/routes/NewsDetail.jsx:184 | splitting pieces joined by blank lines (non-empty, no newline at either end, no blank line inside) gives the pieces back |
| Detail.SplitIsSingle | web/src/app/routes/NewsDetail.jsx:184 | a text splits into one piece exactly when it has no blank line |
| Detail.TrimAll | web/src/app/routes/NewsDetail.jsx:185 | every piece is trimmed and the count is kept |
| Detail.BlankLineParagraphs | web/src/app/routes/NewsDetail.jsx:183-186 | every paragraph kept is trimmed and longer than 15 characters, and there are no more of them than pieces |
| Detail.ParagraphsKept | web/src/app/routes/NewsDetail.jsx:183-186 | the paragraphs come in the order of the pieces, and every trimmed piece longer than 15 characters is among them |
| Detail.TextRun | web/src/app/routes/NewsDetail.jsx:190 | the longest prefix with no `.`, `!`, `?` |
| Detail.StopRun | web/src/app/routes/NewsDetail.jsx:190 | the longest prefix of `.`, `!`, `?` |
| Detail.SentencesAreSentences | web/src/app/routes/NewsDetail.jsx:190 | every match of `/[^.!?]+[.!?]+/g` is text, then stops, with no text after a stop |
| Detail.Sentences | web/src/app/routes/NewsDetail.jsx:190 | the global sentence match; `Detail.SentencesAreSentences`, `Detail.SentencesCoverText` and `Detail.SentencesOfText` state what it returns |
| Detail.SentencesCoverText | web/src/app/routes/NewsDetail.jsx:190 | a text that opens with text and ends with a stop is exactly its sentences laid end to end |
| Detail.SentencesOfText | web/src/app/routes/NewsDetail.jsx:190 | for any text split as leading stops, a part that opens with text and ends with a stop, and a stop-free tail, the matches laid end to end are exactly that middle part |
| Detail.NoStopNoSentence | web/src/app/routes/NewsDetail.jsx:190 | a text with no stop has no sentence |
| Detail.RawPairs | web/src/app/routes/NewsDetail.jsx:194-201 | pairing gives `ceil(k/2)` groups |
| Detail.Pairs | web/src/app/routes/NewsDetail.jsx:194-201 | the sentences joined in pairs give `ceil(k/2)` paragraphs |
| Detail.GroupTrimmed | web/src/app/routes/NewsDetail.jsx:194-201 | the loop closes a group after every second sentence and after the last |
| Detail.GroupSentences | web/src/app/routes/NewsDetail.jsx:191-201 | the `forEach` computes the pairs, `ceil(k/2)` paragraphs |
| Detail.ArticleParagraphs | web/src/app/routes/NewsDetail.jsx:183-207 | never empty: the blank-line paragraphs; for one paragraph over 300 characters, its sentences (or the paragraph itself when none matches) joined in pairs; the whole text when no paragraph is left |
| Carousel.Next | web/src/app/components/HeroBanner.jsx:253 | a step forward stays on a slide |
| Carousel.Prev | web/src/app/components/HeroBanner.jsx:247 | a step back stays on a slide |
| Carousel.NextPrevUndo | web/src/app/components/DailyRecipe.jsx:83-93 | forward and back undo each other on every valid index |
| Carousel.AdvanceWithin | web/src/app/components/HeroBanner.jsx:46-51 | before the end, k timer ticks move k slides on |
| Carousel.AdvanceCompose | web/src/app/components/HeroBanner.jsx:46-51 | ticks compose |
| Carousel.FullCycle | web/src/app/components/HeroBanner.jsx:46-51 | after n ticks the banner is back, having shown every slide once |
| Carousel.SlidesStayInWindow | web/src/app/components/NewsSlider.jsx:10-16 | with four or more cards both moves stay in the window and undo each other |
| Carousel.ShortSliderGoesNegative | web/src/app/components/NewsSlider.jsx:11 | with one to three cards a move left from the start gives a negative index |
| Carousel.SlideLeft | web/src/app/components/NewsSlider.jsx:11 | the clamped move left agrees with the original whenever there are four cards |
| Carousel.SlidesNeverLeave | web/src/app/components/NewsSlider.jsx:10-16 | for every list length the clamped moves keep the index between 0 and the last start |
| Carousel.SlideLeftAsWritten | web/src/app/components/NewsSlider.jsx:10-12 | the left arrow as written; `Carousel.SlidesStayInWindow` and `Carousel.ShortSliderGoesNegative` state where it goes |
| Carousel.SlideRight | web/src/app/components/NewsSlider.jsx:14-16 | the right arrow never gives a negative index; `Carousel.SlidesStayInWindow` keeps it in the window |
| Carousel.DotCount | web/src/app/components/NewsSlider.jsx:123 | there are `ceil(len/4)` dots: the fewest groups of four covering the list |
| Carousel.DotTarget | web/src/app/components/NewsSlider.jsx:126 | clicking a dot moves to a card under that same dot |
| Carousel.ActiveDot | web/src/app/components/NewsSlider.jsx:128 | the highlighted dot is the one whose group of four holds the current card |
| Carousel.DotsMatchCards | web/src/app/components/NewsSlider.jsx:123-128 | each dot leads to a card and is highlighted afterwards; every card lies under a dot |
| Carousel.Ticker | web/src/app/components/NewsSlider.jsx:19-37 | the first `min(10, len)` titles, twice |
| Carousel.Slider | web/src/app/components/NewsSlider.jsx:8 | an empty list renders nothing |
| Hero.CategoryColor | web/src/app/components/HeroBanner.jsx:30-44 | the colour is a table entry or the slate default |
| Hero.CategoryStyle | web/src/app/components/HeroBanner.jsx:57-71 | the style is a table entry or the slate default |
| Hero.DefaultsOnlyForUnknown | web/src/app/components/HeroBanner.jsx:30-71 | the defaults appear exactly for the categories outside the tables, and both tables know the same categories |
| Hero.FeaturedSlide | web/src/app/components/HeroBanner.jsx:10-17 | a slide copies its article, takes the color of its category and shows at most 100 summary characters then `...` |
| Hero.HeroSlides | web/src/app/components/HeroBanner.jsx:9-27 | five slides of the first five articles when there are five, otherwise the placeholder alone; slides link exactly when loaded |
| Hero.BackgroundRows | web/src/app/components/HeroBanner.jsx:54-135 | the two rows together are the first twelve articles, six above |
| Recipe.ToDish | web/src/app/components/DailyRecipe.jsx:36-45 | the recipe copies the meal field for field |
| Recipe.Dishes | web/src/app/components/DailyRecipe.jsx:34-46 | one recipe per kept reply, named after its first meal |
| Recipe.LoadDishes | web/src/app/components/DailyRecipe.jsx:33-78 | the first meal of every reply that has one, in order, or the Kuru Fasulye fallback alone when none has or the lookups failed |
| Recipe.HasMeal | web/src/app/components/DailyRecipe.jsx:34 | the reply-has-a-meal test; `Recipe.LoadDishes` states which replies it keeps |
| Recipe.NextDish | web/src/app/components/DailyRecipe.jsx:81-89 | a step forward stays on a recipe, with direction 1 |
| Recipe.PrevDish | web/src/app/components/DailyRecipe.jsx:91-99 | a step back stays on a recipe, with direction -1 |
| Recipe.PickDot | web/src/app/components/DailyRecipe.jsx:163-166 | a dot selects its recipe, forward exactly when it lies after the shown one |
| Recipe.NavigationUndoes | web/src/app/components/DailyRecipe.jsx:81-99 | forward then back returns to the same recipe |
| Video.KindAt | web/src/app/routes/Video.jsx:68 | live for multiples of 4, else documentary for multiples of 3, else interview for even, else news |
| Video.UploadDateAsWritten | web/src/app/routes/Video.jsx:65 | the date as read is always missing |
| Video.UploadDate | web/src/app/routes/Video.jsx:65 | the date is present exactly when the article has a publication time, and is that time |
| Video.UploadDateLost | web/src/app/routes/Video.jsx:65 | a dated article still shows no upload date as written |
| Video.ToClip | web/src/app/routes/Video.jsx:58-70 | the card copies its article, is live exactly every fifth index and embeds a listed video; its upload date is the corrected one (see Findings) |
| Video.Clips | web/src/app/routes/Video.jsx:58-70 | one card per article, numbered by position, each with the corrected upload date |
| Video.EmbedsCycle | web/src/app/routes/Video.jsx:69 | cards twelve apart embed the same video |
| Video.EmbedsDistinct | web/src/app/routes/Video.jsx:39-55 | the twelve listed videos are distinct |
| Video.LiveBadgeAndKind | web/src/app/routes/Video.jsx:67-68 | the live badge and the live kind coincide exactly every twentieth card |
| Video.Filtered | web/src/app/routes/Video.jsx:72-74 | `all` keeps every card; a kind keeps exactly its cards, in order |
| Video.LiveSection | web/src/app/routes/Video.jsx:163 | at most two live cards, in order, and every live card with fewer than two before it |
| Video.LiveSectionOfPage | web/src/app/routes/Video.jsx:163 | with six or more articles the live section is the cards at 0 and 5 |
| Grid.Arrange | web/src/app/components/AsymmetricNewsGrid.jsx:11-52 | empty input gives the message; otherwise the first item is the hero, at most 11 follow, and the button shows exactly beyond 12 |
| Grid.ShownCards | web/src/app/components/AsymmetricNewsGrid.jsx:21-52 | the cards are the first `min(len, 12)` items in order, and the button shows exactly when some item is hidden |
| Clock.Search | web/src/app/components/EnhancedClock.jsx:71-76 | an empty query keeps every city; otherwise exactly the cities whose lowered name or country contains the lowered query, in order |
| Clock.FilteredCities | web/src/app/components/EnhancedClock.jsx:28-44 | the search over the fifteen listed cities |
| Weather.Classify | web/src/services/weather.js:133-142 | NaN gets the default; each class holds exactly its code ranges; the default takes codes below 200 and 400-499 |
| Weather.IconUrl | web/src/services/weather.js:124-126 | the URL is the base, the icon and `@2x.png` |
| Weather.IconUrlInjective | web/src/services/weather.js:124-126 | distinct icons give distinct URLs |
| Weather.TimezoneOffsetSeconds | web/src/services/weather.js:174-176 | the offset in seconds is the negated minutes times 60 and positive exactly for zones east of UTC |

## Findings

| source | as written | input that shows it | evidently intended | confidence | as-written member | corrected member |
|---|---|---|---|---|---|---|
| web/src/app/components/NewsSlider.jsx:11 | `slideLeft` from index 0 sets `news.length - 4` | a slider with 1 to 3 articles (the home page's technology section when few match), left arrow at index 0: the index becomes -3 to -1, the track offset is the malformed `--25%` and no dot is highlighted | stay at the first card when there is no full window | not executed | Carousel.ShortSliderGoesNegative | Carousel.SlidesNeverLeave |
| web/src/app/routes/Video.jsx:65 | `uploadDate: news.publishDate` | any article: the gateway's articles carry `publishedAt` and no `publishDate`, so the date shown on each card and in the player is empty | read `news.publishedAt` | not executed | Video.UploadDateLost | Video.UploadDate |

## Left out

- The catch-all branch of `/api/news` (api/index.js:411-419) is not modelled. The modelled code has no throwing path outside the adapters, which are already caught per call.
- `/api/stats` and `/health` are not modelled. They are floating-point percentages and plain reporting.
- Express, helmet, cors, express-rate-limit, `app.listen` and logging are not modelled. They are plumbing, and the CORS callback accepts every origin.
- Concurrency is not modelled. The three provider calls run in order against the quota table, and the timers are explicit steps (`Quota.Sweep`, `Gateway.Expire`, `RateLimit.Cleanup`).
- Axios calls and their timeouts are given outcomes (`Gateway.World`). Malformed provider records that are not objects are not represented.
- `.filter(article => article)` (api/index.js:343) is the identity in the model, because every adapter result is an object.
- Query parameters are single strings; repeated parameters given as arrays are not modelled.
- The category tables are looked up as maps. Keys inherited from `Object.prototype` (such as `constructor`) are not modelled.
- `toLowerCase` maps ASCII, Latin-1, Ğ, Ş, İ and the Kelvin sign; other scripts are left unchanged. String lengths count code points, not UTF-16 units. No Unicode normalisation is modelled.
- Locale formatting, the clock's per-city time and the date display on the detail page are not modelled.
- The random durations and view counts of the video cards are not modelled.
- `localStorage` persistence is not modelled. The stored article list is a parameter of `Detail.Related`.
- Emoji glyphs of the weather service are replaced by the `Weather.Sky` classes.
- The summary box of the detail page is not modelled.
- The exchange-rate service and the frontend news client are not modelled: the first is floating-point arithmetic, the second an HTTP wrapper with a fixed fallback item.
- Rendering, animation, DOMPurify, SEO tags and the static link tables are not modelled.
- Geolocation and the calls to OpenWeatherMap, Aladhan and TheMealDB are not modelled. Their replies are parameters where the logic depends on them (`Recipe.LoadDishes`).
- Slug.SlugShape: states neither a non-empty slug nor the absence of a trailing hyphen, because the code guarantees neither.
- Detail.StripMarkersFixes: states that no marker remains only when the single pass changes nothing, because a nested marker survives one pass.
- Video.ToClip: builds the card with the corrected upload date (`Video.UploadDate`); the code as written shows none (`Video.UploadDateAsWritten`, see Findings).
- Video.Clips: uses the corrected upload date, as `Video.ToClip` does.
- Gateway.CacheKeyInjective: holds for the modelled numbers only. `Text.JsNum` is an unbounded integer or NaN, not an IEEE double: `parseInt` of more than about 16 digits rounds in JavaScript and not here, a template literal renders 1e21 and above in exponent form, and `-0` does not exist here. Two huge page sizes can share a key in JavaScript.
- Gateway.QueryPage: reads the page number as an exact integer, for the same reason; very long digit strings round in JavaScript.
- Clock.Search: does not state which Turkish queries match. Lower-casing `İ` gives `i` plus U+0307, so `ingiltere` does not find İngiltere. This is the code's behaviour and is not claimed as intended.
