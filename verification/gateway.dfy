/**
 * The news gateway's request path: the TTL cache, the three provider
 * adapters behind their key check and quota gate, `fetchNewsHybrid` (cache
 * first, then all three providers merged and shuffled, with the demo list
 * when none of them returns anything) and the query handling of
 * `GET /api/news`.
 *
 * Each provider call is an input: the reply it gave, or `Failed` for a
 * network error, timeout or non-2xx status. The clock and the shuffle's
 * random choices are inputs too.
 */
module Gateway {
  import opened Wrappers
  import opened Text
  import opened Seqs
  import opened Quota
  import opened Articles
  import opened Shuffle

  // ---------------------------------------------------------------------------
  // The cache
  // ---------------------------------------------------------------------------

  /** `stdTTL: 3600` seconds, in milliseconds. */
  const CacheTtl := 3600 * 1000

  /** A cached list and the time after which it has expired. */
  datatype Entry = Entry(articles: seq<Article>, expiresAt: int)

  type Cache = map<string, Entry>

  /** The entry is present and not yet expired at `now`. */
  predicate Live(c: Cache, key: string, now: int) {
    key in c && now <= c[key].expiresAt
  }

  datatype Looked = Looked(hit: Option<seq<Article>>, cache: Cache)

  /** `cache.get(key)`: a live entry is returned; an expired one is deleted
      and counts as a miss. */
  function Lookup(c: Cache, key: string, now: int): (r: Looked)
    ensures Live(c, key, now) ==> r.hit == Some(c[key].articles) && r.cache == c
    ensures !Live(c, key, now) ==> r.hit.None? && key !in r.cache
    ensures forall k :: k != key ==> (k in r.cache <==> k in c)
    ensures forall k :: k in r.cache ==> k in c && r.cache[k] == c[k]
  {
    if Live(c, key, now) then Looked(Some(c[key].articles), c)
    else Looked(None, c - {key})
  }

  /** `cache.set(key, articles)` with the standard TTL. */
  function Store(c: Cache, key: string, articles: seq<Article>, now: int): (r: Cache)
    ensures Live(r, key, now) && r[key].articles == articles
    ensures r[key].expiresAt == now + CacheTtl
    ensures forall k :: k != key ==> (k in r <==> k in c)
    ensures forall k :: k != key && k in c ==> r[k] == c[k]
  {
    c[key := Entry(articles, now + CacheTtl)]
  }

  /** The periodic expiry check: exactly the expired entries are removed. */
  function Expire(c: Cache, now: int): (r: Cache)
    ensures forall k :: k in r <==> Live(c, k, now)
    ensures forall k :: k in r ==> k in c && r[k] == c[k]
  {
    map k | k in c && now <= c[k].expiresAt :: c[k]
  }

  /** The periodic check never changes what a lookup at the same moment
      returns. */
  lemma ExpireIsInvisible(c: Cache, key: string, now: int)
    ensures Lookup(Expire(c, now), key, now).hit == Lookup(c, key, now).hit
  {
  }

  /** The cache key `news-${pageSize}-${page}`. */
  function CacheKey(pageSize: JsNum, page: JsNum): (r: string)
    ensures |r| > 5 && r[..5] == "news-"
  {
    "news-" + NumToString(pageSize) + "-" + NumToString(page)
  }

  lemma DropPrefix(p: string, x: string, y: string)
    requires p + x == p + y
    ensures x == y
  {
    assert (p + x)[|p|..] == x;
    assert (p + y)[|p|..] == y;
  }

  lemma KeyHalves(a: string, b: string, c: string, d: string)
    requires |a| >= 1 && |c| >= 1
    requires forall i :: 1 <= i < |a| ==> a[i] != '-'
    requires forall i :: 1 <= i < |c| ==> c[i] != '-'
    requires "news-" + a + "-" + b == "news-" + c + "-" + d
    ensures a == c && b == d
  {
    assert "news-" + a + "-" + b == "news-" + (a + "-" + b);
    assert "news-" + c + "-" + d == "news-" + (c + "-" + d);
    DropPrefix("news-", a + "-" + b, c + "-" + d);
    SplitAfterSign(a, b, c, d);
  }

  /** Different queries never share a cache entry. */
  lemma CacheKeyInjective(s1: JsNum, p1: JsNum, s2: JsNum, p2: JsNum)
    requires CacheKey(s1, p1) == CacheKey(s2, p2)
    ensures s1 == s2 && p1 == p2
  {
    KeyHalves(NumToString(s1), NumToString(p1), NumToString(s2), NumToString(p2));
    NumToStringInjective(s1, s2);
    NumToStringInjective(p1, p2);
  }

  // ---------------------------------------------------------------------------
  // The provider adapters
  // ---------------------------------------------------------------------------

  /** What a provider call produced: a reply with its `status` and its list
      field (missing or null is None), or a failure. */
  datatype Upstream<T> = Failed | Replied(status: string, items: Option<seq<T>>)

  /** The three API keys; an unset key is the empty string. */
  datatype Keys = Keys(currents: string, newsdata: string, newsapi: string)

  function KeyOf(k: Keys, p: Provider): string {
    match p
    case Currents => k.currents
    case NewsData => k.newsdata
    case NewsApi => k.newsapi
  }

  /** An adapter's result: the articles, or None where the original throws
      (and the caller's `.catch` substitutes `[]`). */
  datatype Adapted = Adapted(articles: Option<seq<Article>>, quotas: Quotas)

  /** The guard every adapter opens with: an unset key fails before the
      quota is looked at; otherwise the gate is asked, and a call it admits
      is counted whether or not the provider then answers. */
  function Guard(key: string, q: Quotas, p: Provider, now: int): (r: Consumed)
    ensures key == "" ==> r == Consumed(false, q)
    ensures key != "" ==> r == TryConsume(q, p, now)
  {
    if key == "" then Consumed(false, q) else TryConsume(q, p, now)
  }

  /** `fetchFromCurrents`: a reply counts when its status is `ok` and it
      carries a `news` list. */
  function FetchCurrents(key: string, q: Quotas, now: int, reply: Upstream<CurrentsItem>, clock: nat -> nat): (r: Adapted)
    ensures r.quotas == Guard(key, q, Currents, now).quotas
    ensures r.articles.Some? <==>
      Guard(key, q, Currents, now).allowed && reply.Replied? && reply.status == "ok" && reply.items.Some?
    ensures r.articles.Some? ==> r.articles.value == FromCurrentsList(reply.items.value, clock)
  {
    var g := Guard(key, q, Currents, now);
    if g.allowed && reply.Replied? && reply.status == "ok" && reply.items.Some? then
      Adapted(Some(FromCurrentsList(reply.items.value, clock)), g.quotas)
    else Adapted(None, g.quotas)
  }

  /** `fetchFromNewsData`: a reply counts when its status is `success` and it
      carries a `results` list. */
  function FetchNewsData(key: string, q: Quotas, now: int, reply: Upstream<NewsDataItem>, clock: nat -> nat): (r: Adapted)
    ensures r.quotas == Guard(key, q, NewsData, now).quotas
    ensures r.articles.Some? <==>
      Guard(key, q, NewsData, now).allowed && reply.Replied? && reply.status == "success" && reply.items.Some?
    ensures r.articles.Some? ==> r.articles.value == FromNewsDataList(reply.items.value, clock)
  {
    var g := Guard(key, q, NewsData, now);
    if g.allowed && reply.Replied? && reply.status == "success" && reply.items.Some? then
      Adapted(Some(FromNewsDataList(reply.items.value, clock)), g.quotas)
    else Adapted(None, g.quotas)
  }

  /** `fetchFromNewsAPI`: a reply counts when its status is `ok` and it
      carries an `articles` list. */
  function FetchNewsApi(key: string, q: Quotas, now: int, reply: Upstream<NewsApiItem>, clock: nat -> nat): (r: Adapted)
    ensures r.quotas == Guard(key, q, NewsApi, now).quotas
    ensures r.articles.Some? <==>
      Guard(key, q, NewsApi, now).allowed && reply.Replied? && reply.status == "ok" && reply.items.Some?
    ensures r.articles.Some? ==> r.articles.value == FromNewsApiList(reply.items.value, clock)
  {
    var g := Guard(key, q, NewsApi, now);
    if g.allowed && reply.Replied? && reply.status == "ok" && reply.items.Some? then
      Adapted(Some(FromNewsApiList(reply.items.value, clock)), g.quotas)
    else Adapted(None, g.quotas)
  }

  // ---------------------------------------------------------------------------
  // fetchNewsHybrid
  // ---------------------------------------------------------------------------

  /** Everything outside the process that one request depends on: the three
      replies, the clock readings while each list is mapped, how long the
      three calls take to settle, and the shuffle's random choices. */
  datatype World = World(
    currents: Upstream<CurrentsItem>, newsdata: Upstream<NewsDataItem>, newsapi: Upstream<NewsApiItem>,
    currentsClock: nat -> nat, newsdataClock: nat -> nat, newsapiClock: nat -> nat,
    latency: nat, rand: nat -> nat)

  /** The clock once `Promise.all` has settled: the cache write and the demo
      list's timestamps read it then, not at the lookup. */
  function Settled(now: int, w: World): (t: int)
    ensures t >= now
  {
    now + w.latency
  }

  /** The gateway's mutable state. */
  datatype Server = Server(keys: Keys, quotas: Quotas, cache: Cache)

  datatype Stats = Stats(currents: nat, newsdata: nat, newsapi: nat, total: nat)

  datatype Outcome = Outcome(
    articles: seq<Article>, source: string, cached: bool, error: Option<string>, stats: Option<Stats>)

  datatype Step = Step(outcome: Outcome, server: Server)

  const HybridSource := "Hybrid (3 API Paralel)"
  const AllFailed := "Tüm API'ler başarısız"

  /** The three adapters run in order against the quota table. */
  datatype FanOut = FanOut(currents: seq<Article>, newsdata: seq<Article>, newsapi: seq<Article>, quotas: Quotas)

  function CallAll(keys: Keys, q: Quotas, now: int, w: World): (f: FanOut)
    ensures forall p :: f.quotas.Get(p) == Guard(KeyOf(keys, p), q, p, now).quotas.Get(p)
  {
    var a := FetchCurrents(keys.currents, q, now, w.currents, w.currentsClock);
    var b := FetchNewsData(keys.newsdata, a.quotas, now, w.newsdata, w.newsdataClock);
    var c := FetchNewsApi(keys.newsapi, b.quotas, now, w.newsapi, w.newsapiClock);
    ThreeGuards(keys, q, now, a.quotas, b.quotas, c.quotas);
    FanOut(a.articles.GetOr([]), b.articles.GetOr([]), c.articles.GetOr([]), c.quotas)
  }

  /** Each guard touches only its own provider's counter, so after the
      three run in turn each counter is what its own guard made of it. */
  lemma ThreeGuards(keys: Keys, q: Quotas, now: int, qa: Quotas, qb: Quotas, qc: Quotas)
    requires qa == Guard(keys.currents, q, Currents, now).quotas
    requires qb == Guard(keys.newsdata, qa, NewsData, now).quotas
    requires qc == Guard(keys.newsapi, qb, NewsApi, now).quotas
    ensures forall p :: qc.Get(p) == Guard(KeyOf(keys, p), q, p, now).quotas.Get(p)
  {
    forall p
      ensures qc.Get(p) == Guard(KeyOf(keys, p), q, p, now).quotas.Get(p)
    {
      match p
      case Currents =>
        GuardLeaves(keys.newsapi, qb, NewsApi, now, Currents);
        GuardLeaves(keys.newsdata, qa, NewsData, now, Currents);
      case NewsData =>
        GuardLeaves(keys.newsapi, qb, NewsApi, now, NewsData);
        GuardLeaves(keys.currents, q, Currents, now, NewsData);
      case NewsApi =>
        GuardLeaves(keys.newsdata, qa, NewsData, now, NewsApi);
        GuardLeaves(keys.currents, q, Currents, now, NewsApi);
    }
  }

  lemma GuardLeaves(key: string, q: Quotas, p: Provider, now: int, o: Provider)
    requires o != p
    ensures Guard(key, q, p, now).quotas.Get(o) == q.Get(o)
  {
  }

  /** `results.flat()`: the three lists in provider order. */
  function Merged(f: FanOut): (r: seq<Article>)
    ensures |r| == |f.currents| + |f.newsdata| + |f.newsapi|
    ensures forall a :: a in r <==> a in f.currents || a in f.newsdata || a in f.newsapi
  {
    f.currents + f.newsdata + f.newsapi
  }

  /** What `fetchNewsHybrid` does once the three provider lists are in,
      after a cache miss, at the time `now` they settled: the demo list when
      all are empty, otherwise the shuffled merge, stored under the key. */
  function Respond(sv: Server, key: string, pageSize: JsNum, now: int, f: FanOut, rand: nat -> nat): (r: Step)
    requires key !in sv.cache
    ensures r.server.keys == sv.keys && r.server.quotas == f.quotas && !r.outcome.cached
    // Some articles: a permutation of all of them is returned and cached.
    ensures |Merged(f)| > 0 ==>
      && multiset(r.outcome.articles) == multiset(Merged(f))
      && r.outcome.source == HybridSource && r.outcome.error.None?
      && r.outcome.stats == Some(Stats(|f.currents|, |f.newsdata|, |f.newsapi|, |Merged(f)|))
      && r.server.cache == Store(sv.cache, key, r.outcome.articles, now)
    // No articles at all: the demo list, and nothing is cached.
    ensures |Merged(f)| == 0 ==>
      && r.outcome == Outcome(GetDemoNews(pageSize, now), "demo", false, Some(AllFailed), None)
      && r.server.cache == sv.cache
  {
    var all := Merged(f);
    if |all| == 0 then
      Step(Outcome(GetDemoNews(pageSize, now), "demo", false, Some(AllFailed), None),
           Server(sv.keys, f.quotas, sv.cache))
    else
      var shuffled := Shuffled(all, rand);
      ShuffledPermutes(all, rand);
      Step(Outcome(shuffled, HybridSource, false, None, Some(Stats(|f.currents|, |f.newsdata|, |f.newsapi|, |all|))),
           Server(sv.keys, f.quotas, Store(sv.cache, key, shuffled, now)))
  }

  /** `fetchNewsHybrid(pageSize, page)`: a live entry answers the request
      with no provider called; otherwise the expired entry (if any) is
      dropped, the three adapters are called at `now` and `Respond`
      finishes when they have settled. */
  function FetchNewsHybrid(sv: Server, pageSize: JsNum, page: JsNum, now: int, w: World): (r: Step)
    ensures var key := CacheKey(pageSize, page);
      && (Live(sv.cache, key, now) ==>
            r == Step(Outcome(sv.cache[key].articles, "cache", true, None, None), sv))
      && (!Live(sv.cache, key, now) ==>
            r == Respond(sv.(cache := sv.cache - {key}), key, pageSize, Settled(now, w), CallAll(sv.keys, sv.quotas, now, w), w.rand))
  {
    var key := CacheKey(pageSize, page);
    var look := Lookup(sv.cache, key, now);
    if look.hit.Some? then
      Step(Outcome(look.hit.value, "cache", true, None, None), sv)
    else
      Respond(sv.(cache := look.cache), key, pageSize, Settled(now, w), CallAll(sv.keys, sv.quotas, now, w), w.rand)
  }

  /** The quota table after a miss is the one the three guards leave,
      whatever the providers answer: a failed call still costs its quota. */
  lemma HybridMissSpendsQuota(sv: Server, pageSize: JsNum, page: JsNum, now: int, w: World)
    requires !Live(sv.cache, CacheKey(pageSize, page), now)
    ensures var r := FetchNewsHybrid(sv, pageSize, page, now, w);
      forall p :: r.server.quotas.Get(p) == Guard(KeyOf(sv.keys, p), sv.quotas, p, now).quotas.Get(p)
  {
  }

  /** Within the TTL, counted from when the first request's calls settled, a
      repeated request is answered from the cache with the very list the
      first one returned, and spends no quota. */
  lemma RepeatWithinTtlIsCached(sv: Server, pageSize: JsNum, page: JsNum, now: int, later: int, w1: World, w2: World)
    requires now <= later <= Settled(now, w1) + CacheTtl
    requires !Live(sv.cache, CacheKey(pageSize, page), now)
    requires |Merged(CallAll(sv.keys, sv.quotas, now, w1))| > 0
    ensures var r1 := FetchNewsHybrid(sv, pageSize, page, now, w1);
      var r2 := FetchNewsHybrid(r1.server, pageSize, page, later, w2);
      && r2.outcome.cached && r2.outcome.articles == r1.outcome.articles
      && r2.server == r1.server
  {
  }

  /** Every article of every cached list has its defaults filled. */
  predicate CacheComplete(c: Cache) {
    forall k :: k in c ==> AllComplete(c[k].articles)
  }

  predicate AllComplete(xs: seq<Article>) {
    forall i :: 0 <= i < |xs| ==> Complete(xs[i])
  }

  lemma FanOutComplete(keys: Keys, q: Quotas, now: int, w: World)
    ensures AllComplete(Merged(CallAll(keys, q, now, w)))
  {
    var f := CallAll(keys, q, now, w);
    assert AllComplete(f.currents) && AllComplete(f.newsdata) && AllComplete(f.newsapi);
    var m := Merged(f);
    forall i | 0 <= i < |m|
      ensures Complete(m[i])
    {
      if i < |f.currents| {
        assert m[i] == f.currents[i];
      } else if i < |f.currents| + |f.newsdata| {
        assert m[i] == f.newsdata[i - |f.currents|];
      } else {
        assert m[i] == f.newsapi[i - |f.currents| - |f.newsdata|];
      }
    }
  }

  lemma PermutationKeepsComplete(xs: seq<Article>, ys: seq<Article>)
    requires multiset(xs) == multiset(ys) && AllComplete(ys)
    ensures AllComplete(xs)
  {
    forall i | 0 <= i < |xs|
      ensures Complete(xs[i])
    {
      assert xs[i] in multiset(ys);
      var j :| 0 <= j < |ys| && ys[j] == xs[i];
    }
  }

  lemma RespondServesComplete(sv: Server, key: string, pageSize: JsNum, now: int, f: FanOut, rand: nat -> nat)
    requires key !in sv.cache && CacheComplete(sv.cache) && AllComplete(Merged(f))
    ensures var r := Respond(sv, key, pageSize, now, f, rand);
      AllComplete(r.outcome.articles) && CacheComplete(r.server.cache)
  {
    var r := Respond(sv, key, pageSize, now, f, rand);
    if |Merged(f)| > 0 {
      PermutationKeepsComplete(r.outcome.articles, Merged(f));
    } else {
      DemoArticlesComplete(now);
      DemoNewsArePrefix(pageSize, now);
    }
  }

  /** Whatever the gateway serves, from a provider, from the cache or from
      the demo list, has its defaults filled, and the cache stays that way. */
  lemma HybridServesComplete(sv: Server, pageSize: JsNum, page: JsNum, now: int, w: World)
    requires CacheComplete(sv.cache)
    ensures var r := FetchNewsHybrid(sv, pageSize, page, now, w);
      AllComplete(r.outcome.articles) && CacheComplete(r.server.cache)
  {
    var key := CacheKey(pageSize, page);
    if !Live(sv.cache, key, now) {
      FanOutComplete(sv.keys, sv.quotas, now, w);
      RespondServesComplete(sv.(cache := sv.cache - {key}), key, pageSize, Settled(now, w), CallAll(sv.keys, sv.quotas, now, w), w.rand);
    }
  }

  // ---------------------------------------------------------------------------
  // GET /api/news
  // ---------------------------------------------------------------------------

  const MaxPageSize := 20

  /** `Math.min(parseInt(pageSize), 20)`, with `pageSize` defaulting to 10
      when the query parameter is absent. There is no lower bound: 0, a
      negative number or NaN passes through. */
  function QueryLimit(pageSize: Option<string>): (r: JsNum)
    ensures pageSize.None? ==> r == Num(10)
    ensures r.Num? ==> r.n <= MaxPageSize
    ensures pageSize.Some? ==> (r.NaN? <==> ParseInt(pageSize.value).NaN?)
    ensures pageSize.Some? && ParseInt(pageSize.value).Num? && ParseInt(pageSize.value).n <= MaxPageSize ==>
      r == ParseInt(pageSize.value)
    ensures pageSize.Some? && ParseInt(pageSize.value).Num? && ParseInt(pageSize.value).n > MaxPageSize ==>
      r == Num(MaxPageSize)
  {
    match pageSize
    case None => Num(10)
    case Some(s) => MinNum(ParseInt(s), MaxPageSize)
  }

  /** `parseInt(page)`, with `page` defaulting to 1. */
  function QueryPage(page: Option<string>): (r: JsNum)
    ensures page.None? ==> r == Num(1)
    ensures page.Some? ==> r == ParseInt(page.value)
  {
    match page
    case None => Num(1)
    case Some(s) => ParseInt(s)
  }

  /** `${count}/${limit}` as the stats block reports a provider's usage. */
  function UsageText(count: nat, limit: nat): string {
    NatToString(count) + "/" + NatToString(limit)
  }

  /** The count is what a reader of the stats block gets back with
      `parseInt`. */
  lemma UsageTextReadsBack(count: nat, limit: nat)
    ensures ParseInt(UsageText(count, limit)) == Num(count)
  {
    DecimalRoundTrip(count);
    assert UsageText(count, limit) == NatToString(count) + ("/" + NatToString(limit));
    ParseDigitsThenText(NatToString(count), "/" + NatToString(limit));
  }

  datatype UsageStats = UsageStats(currents: string, newsdata: string, newsapi: string)

  datatype NewsResponse = NewsResponse(
    success: bool, source: string, cached: bool, articles: seq<Article>, stats: UsageStats, message: string)

  /** The `message` field. */
  function Message(o: Outcome): (m: string)
    ensures o.cached ==> m == "Cache'den döndürüldü"
    ensures !o.cached ==> m == o.source + " kullanıldı"
  {
    if o.cached then "Cache'den döndürüldü" else o.source + " kullanıldı"
  }

  /** The JSON body of a successful request: the outcome of the fetch and the
      usage recorded after it. */
  function Reply(o: Outcome, q: Quotas): (r: NewsResponse)
    ensures r.success
    ensures r.articles == o.articles && r.cached == o.cached && r.source == o.source
    ensures r.message == Message(o)
    // Each provider's usage is reported against the limit its gate enforces;
    // `UsageTextReadsBack` reads the count back out of the text.
    ensures r.stats == UsageStats(
      UsageText(q.currents.count, DailyLimit(Currents)),
      UsageText(q.newsdata.count, DailyLimit(NewsData)),
      UsageText(q.newsapi.count, DailyLimit(NewsApi)))
  {
    NewsResponse(true, o.source, o.cached, o.articles,
                 UsageStats(UsageText(q.currents.count, 600), UsageText(q.newsdata.count, 200), UsageText(q.newsapi.count, 100)),
                 Message(o))
  }

  /** `GET /api/news?pageSize=&page=`: the clamped query is passed to
      `fetchNewsHybrid` and the reply carries the usage after the call. */
  function NewsEndpoint(sv: Server, pageSize: Option<string>, page: Option<string>, now: int, w: World): (r: (NewsResponse, Server))
    ensures var step := FetchNewsHybrid(sv, QueryLimit(pageSize), QueryPage(page), now, w);
      && r.1 == step.server
      && r.0.success
      && r.0.articles == step.outcome.articles && r.0.cached == step.outcome.cached
      && r.0.source == step.outcome.source
      && r.0.message == Message(step.outcome)
      && r.0.stats == UsageStats(
           UsageText(step.server.quotas.currents.count, DailyLimit(Currents)),
           UsageText(step.server.quotas.newsdata.count, DailyLimit(NewsData)),
           UsageText(step.server.quotas.newsapi.count, DailyLimit(NewsApi)))
  {
    var step := FetchNewsHybrid(sv, QueryLimit(pageSize), QueryPage(page), now, w);
    (Reply(step.outcome, step.server.quotas), step.server)
  }

  /** The demo fallback as a request sees it: all three demo articles when
      no page size is given, `min(n, 3)` for a page size that reads as
      `n >= 0`, and, since the limit has no lower bound, three less `|n|`
      (none when that is not positive) for a negative one: `-1` gives two. */
  lemma DemoFallbackSize(pageSize: Option<string>, now: int)
    ensures pageSize.None? ==> |GetDemoNews(QueryLimit(pageSize), now)| == 3
    ensures pageSize.Some? && ParseInt(pageSize.value).Num? ==>
      var n := ParseInt(pageSize.value).n;
      |GetDemoNews(QueryLimit(pageSize), now)| ==
        if n >= 0 then Min(n, 3) else if 3 + n > 0 then 3 + n else 0
    ensures pageSize.Some? && ParseInt(pageSize.value).NaN? ==> GetDemoNews(QueryLimit(pageSize), now) == []
  {
  }
}
