/**
 * The article shape every provider is normalised into, the three provider
 * adapters' mapping of raw records, and the static demo list the gateway
 * falls back to.
 */
module Articles {
  import opened Wrappers
  import opened Text
  import opened Seqs
  import Slug

  const DefaultSummary := "Haber detayları için tıklayın."
  const PlaceholderImage := "https://images.unsplash.com/photo-1504711434969-e33886168f5c?w=800"
  const DefaultAuthor := "Haber Kaynağı"
  const DefaultCategory := "Gündem"

  /** A publication time: the provider's own text, or the ISO rendering of a
      millisecond timestamp (only the demo list produces these). */
  datatype Published = Given(text: string) | IsoOf(millis: int)

  /** The normalised article. `title`, `content`, `publishedAt` and `url`
      are copied from the provider without a default and may be missing. */
  datatype Article = Article(
    id: string,
    title: Option<string>,
    summary: string,
    content: Option<string>,
    category: string,
    slug: string,
    image: string,
    publishedAt: Option<Published>,
    source: string,
    url: Option<string>,
    author: string)

  /** The fields the adapters always fill: a non-empty summary, category,
      image, author and source. */
  predicate Complete(a: Article) {
    a.summary != "" && a.category != "" && a.image != "" && a.author != "" && a.source != ""
  }

  // ---------------------------------------------------------------------------
  // Raw provider records
  // ---------------------------------------------------------------------------

  /** A Currents API `news` item. A missing `category` array is the empty one. */
  datatype CurrentsItem = CurrentsItem(
    title: Option<string>, description: Option<string>, category: seq<string>,
    image: Option<string>, published: Option<string>, url: Option<string>, author: Option<string>)

  /** A NewsData.io `results` item. Missing `category` and `creator` arrays are
      the empty ones. */
  datatype NewsDataItem = NewsDataItem(
    title: Option<string>, description: Option<string>, content: Option<string>,
    category: seq<string>, imageUrl: Option<string>, pubDate: Option<string>,
    link: Option<string>, creator: seq<string>, sourceId: Option<string>)

  /** A NewsAPI `articles` item; `sourceName` is `source.name`. */
  datatype NewsApiItem = NewsApiItem(
    title: Option<string>, description: Option<string>, content: Option<string>,
    urlToImage: Option<string>, publishedAt: Option<string>, url: Option<string>,
    author: Option<string>, sourceName: Option<string>)

  function Stamp(o: Option<string>): Option<Published> {
    match o
    case None => None
    case Some(t) => Some(Given(t))
  }

  /** The id `<provider>-<Date.now()>-<index>`. */
  function ArticleId(prefix: string, stamp: nat, index: nat): (r: string)
    ensures |r| > |prefix| + 2 && r[..|prefix|] == prefix
  {
    prefix + NatToString(stamp) + "-" + NatToString(index)
  }

  // ---------------------------------------------------------------------------
  // The adapters' mapping
  // ---------------------------------------------------------------------------

  /** One Currents item: the first category or Gündem, the description as
      both summary (defaulted) and content (not defaulted). */
  function FromCurrents(x: CurrentsItem, stamp: nat, index: nat): (a: Article)
    ensures Complete(a)
    ensures a.id == ArticleId("currents-", stamp, index) && a.source == "Currents API"
    ensures a.title == x.title && a.url == x.url && a.slug == Slug.Slugify(x.title)
    ensures Truthy(x.description) ==> a.summary == x.description.value
    ensures !Truthy(x.description) ==> a.summary == DefaultSummary
    ensures a.content == x.description
    ensures |x.category| > 0 && x.category[0] != "" ==> a.category == x.category[0]
    ensures !(|x.category| > 0 && x.category[0] != "") ==> a.category == DefaultCategory
    ensures Truthy(x.image) ==> a.image == x.image.value
    ensures !Truthy(x.image) ==> a.image == PlaceholderImage
    ensures Truthy(x.author) ==> a.author == x.author.value
    ensures !Truthy(x.author) ==> a.author == DefaultAuthor
    ensures x.published.Some? <==> a.publishedAt.Some?
    ensures x.published.Some? ==> a.publishedAt == Some(Given(x.published.value))
  {
    Article(
      ArticleId("currents-", stamp, index), x.title, Or(x.description, DefaultSummary), x.description,
      Or(First(x.category), DefaultCategory), Slug.Slugify(x.title), Or(x.image, PlaceholderImage),
      Stamp(x.published), "Currents API", x.url, Or(x.author, DefaultAuthor))
  }

  /** One NewsData.io item: content falls back to the description, the author
      to the first creator, then the source id, then the default. */
  function FromNewsData(x: NewsDataItem, stamp: nat, index: nat): (a: Article)
    ensures Complete(a)
    ensures a.id == ArticleId("newsdata-", stamp, index) && a.source == "NewsData.io"
    ensures a.title == x.title && a.url == x.link && a.slug == Slug.Slugify(x.title)
    ensures Truthy(x.description) ==> a.summary == x.description.value
    ensures !Truthy(x.description) ==> a.summary == DefaultSummary
    ensures a.content == if Truthy(x.content) then x.content else x.description
    ensures |x.category| > 0 && x.category[0] != "" ==> a.category == x.category[0]
    ensures !(|x.category| > 0 && x.category[0] != "") ==> a.category == DefaultCategory
    ensures Truthy(x.imageUrl) ==> a.image == x.imageUrl.value
    ensures !Truthy(x.imageUrl) ==> a.image == PlaceholderImage
    ensures |x.creator| > 0 && x.creator[0] != "" ==> a.author == x.creator[0]
    ensures !(|x.creator| > 0 && x.creator[0] != "") && Truthy(x.sourceId) ==> a.author == x.sourceId.value
    ensures !(|x.creator| > 0 && x.creator[0] != "") && !Truthy(x.sourceId) ==> a.author == DefaultAuthor
    ensures x.pubDate.Some? <==> a.publishedAt.Some?
    ensures x.pubDate.Some? ==> a.publishedAt == Some(Given(x.pubDate.value))
  {
    Article(
      ArticleId("newsdata-", stamp, index), x.title, Or(x.description, DefaultSummary),
      Either(x.content, x.description), Or(First(x.category), DefaultCategory), Slug.Slugify(x.title),
      Or(x.imageUrl, PlaceholderImage), Stamp(x.pubDate), "NewsData.io", x.link,
      Or(Either(First(x.creator), x.sourceId), DefaultAuthor))
  }

  /** One NewsAPI item: the category is always Gündem; the author falls back
      to the source name, then the default. */
  function FromNewsApi(x: NewsApiItem, stamp: nat, index: nat): (a: Article)
    ensures Complete(a)
    ensures a.id == ArticleId("newsapi-", stamp, index) && a.source == "NewsAPI"
    ensures a.title == x.title && a.url == x.url && a.slug == Slug.Slugify(x.title)
    ensures Truthy(x.description) ==> a.summary == x.description.value
    ensures !Truthy(x.description) ==> a.summary == DefaultSummary
    ensures a.content == if Truthy(x.content) then x.content else x.description
    ensures a.category == DefaultCategory
    ensures Truthy(x.urlToImage) ==> a.image == x.urlToImage.value
    ensures !Truthy(x.urlToImage) ==> a.image == PlaceholderImage
    ensures Truthy(x.author) ==> a.author == x.author.value
    ensures !Truthy(x.author) && Truthy(x.sourceName) ==> a.author == x.sourceName.value
    ensures !Truthy(x.author) && !Truthy(x.sourceName) ==> a.author == DefaultAuthor
    ensures x.publishedAt.Some? <==> a.publishedAt.Some?
    ensures x.publishedAt.Some? ==> a.publishedAt == Some(Given(x.publishedAt.value))
  {
    Article(
      ArticleId("newsapi-", stamp, index), x.title, Or(x.description, DefaultSummary),
      Either(x.content, x.description), DefaultCategory, Slug.Slugify(x.title),
      Or(x.urlToImage, PlaceholderImage), Stamp(x.publishedAt), "NewsAPI", x.url,
      Or(Either(x.author, x.sourceName), DefaultAuthor))
  }

  /** `news.map(...)` of a Currents reply; `clock(i)` is the `Date.now()` read
      while mapping item `i`. */
  function FromCurrentsList(xs: seq<CurrentsItem>, clock: nat -> nat): (r: seq<Article>)
    ensures |r| == |xs|
    ensures forall i :: 0 <= i < |r| ==> r[i] == FromCurrents(xs[i], clock(i), i)
  {
    seq(|xs|, i requires 0 <= i < |xs| => FromCurrents(xs[i], clock(i), i))
  }

  function FromNewsDataList(xs: seq<NewsDataItem>, clock: nat -> nat): (r: seq<Article>)
    ensures |r| == |xs|
    ensures forall i :: 0 <= i < |r| ==> r[i] == FromNewsData(xs[i], clock(i), i)
  {
    seq(|xs|, i requires 0 <= i < |xs| => FromNewsData(xs[i], clock(i), i))
  }

  function FromNewsApiList(xs: seq<NewsApiItem>, clock: nat -> nat): (r: seq<Article>)
    ensures |r| == |xs|
    ensures forall i :: 0 <= i < |r| ==> r[i] == FromNewsApi(xs[i], clock(i), i)
  {
    seq(|xs|, i requires 0 <= i < |xs| => FromNewsApi(xs[i], clock(i), i))
  }

  // ---------------------------------------------------------------------------
  // Ids are unique
  // ---------------------------------------------------------------------------

  lemma NatToStringInjective(m: nat, n: nat)
    requires NatToString(m) == NatToString(n)
    ensures m == n
  {
    DecimalRoundTrip(m);
    DecimalRoundTrip(n);
  }

  lemma DigitsHaveNoHyphen(n: nat)
    ensures NoHyphen(NatToString(n))
  {
    var s := NatToString(n);
    forall i | 0 <= i < |s|
      ensures s[i] != '-'
    {
      assert IsRadixDigit(s[i], false);
    }
  }

  /** Two ids with the same provider prefix are equal only when both the
      clock reading and the index agree. */
  lemma ArticleIdInjective(prefix: string, s1: nat, i1: nat, s2: nat, i2: nat)
    requires ArticleId(prefix, s1, i1) == ArticleId(prefix, s2, i2)
    ensures s1 == s2 && i1 == i2
  {
    var a, c := NatToString(s1), NatToString(s2);
    DigitsHaveNoHyphen(s1);
    DigitsHaveNoHyphen(s2);
    assert prefix + a + "-" + NatToString(i1) == prefix + (a + "-" + NatToString(i1));
    assert prefix + c + "-" + NatToString(i2) == prefix + (c + "-" + NatToString(i2));
    assert a + "-" + NatToString(i1) == c + "-" + NatToString(i2) by {
      var x := a + "-" + NatToString(i1);
      var y := c + "-" + NatToString(i2);
      assert (prefix + x)[|prefix|..] == x;
      assert (prefix + y)[|prefix|..] == y;
    }
    SplitAtHyphen(a, NatToString(i1), c, NatToString(i2));
    NatToStringInjective(s1, s2);
    NatToStringInjective(i1, i2);
  }

  predicate DistinctIds(r: seq<Article>) {
    forall i, j :: 0 <= i < j < |r| ==> r[i].id != r[j].id
  }

  /** Within one provider's reply every article gets its own id, whatever the
      clock reads. */
  lemma CurrentsIdsDistinct(xs: seq<CurrentsItem>, clock: nat -> nat)
    ensures DistinctIds(FromCurrentsList(xs, clock))
  {
    var r := FromCurrentsList(xs, clock);
    forall i, j | 0 <= i < j < |r|
      ensures r[i].id != r[j].id
    {
      if r[i].id == r[j].id {
        ArticleIdInjective("currents-", clock(i), i, clock(j), j);
      }
    }
  }

  lemma NewsDataIdsDistinct(xs: seq<NewsDataItem>, clock: nat -> nat)
    ensures DistinctIds(FromNewsDataList(xs, clock))
  {
    var r := FromNewsDataList(xs, clock);
    forall i, j | 0 <= i < j < |r|
      ensures r[i].id != r[j].id
    {
      if r[i].id == r[j].id {
        ArticleIdInjective("newsdata-", clock(i), i, clock(j), j);
      }
    }
  }

  lemma NewsApiIdsDistinct(xs: seq<NewsApiItem>, clock: nat -> nat)
    ensures DistinctIds(FromNewsApiList(xs, clock))
  {
    var r := FromNewsApiList(xs, clock);
    forall i, j | 0 <= i < j < |r|
      ensures r[i].id != r[j].id
    {
      if r[i].id == r[j].id {
        ArticleIdInjective("newsapi-", clock(i), i, clock(j), j);
      }
    }
  }

  // ---------------------------------------------------------------------------
  // The demo list
  // ---------------------------------------------------------------------------

  const DemoContent := "Detaylı haber içeriği..."
  const Hour := 3600000

  function Demo(id: string, title: string, summary: string, category: string, slug: string,
                image: string, millis: int): Article {
    Article(id, Some(title), summary, Some(DemoContent), category, slug, image,
            Some(IsoOf(millis)), "DEMO", Some("#"), "Demo Yazar")
  }

  const Demo1Title := "Türkiye Ekonomisinde Yeni Dönem Başlıyor"
  const Demo1Summary := "Ekonomi yönetimi yeni reform paketini açıkladı. Enflasyonla mücadele ve büyüme hedefleri belirlendi."
  const Demo1Image := "https://images.unsplash.com/photo-1611974789855-9c2a0a7236a3?w=800"
  const Demo2Title := "Teknoloji Devlerinden Yapay Zeka Atılımı"
  const Demo2Summary := "Yeni nesil yapay zeka modelleri tanıtıldı. Türkçe dil desteği güçlendirildi."
  const Demo2Image := "https://images.unsplash.com/photo-1677442136019-21780ecad995?w=800"
  const Demo3Title := "Süper Lig'de Şampiyonluk Yarışı Kızışıyor"
  const Demo3Summary := "Ligin ikinci yarısına girilirken şampiyonluk adayları belli olmaya başladı."
  const Demo3Image := "https://images.unsplash.com/photo-1574629810360-7efbbe195018?w=800"

  function Demo1(now: int): Article {
    Demo("demo-1", Demo1Title, Demo1Summary, "Ekonomi", "turkiye-ekonomi-reform", Demo1Image, now)
  }

  function Demo2(now: int): Article {
    Demo("demo-2", Demo2Title, Demo2Summary, "Teknoloji", "yapay-zeka-atilim", Demo2Image, now - Hour)
  }

  function Demo3(now: int): Article {
    Demo("demo-3", Demo3Title, Demo3Summary, "Spor", "super-lig-sampiyonluk", Demo3Image, now - 2 * Hour)
  }

  /** The three fixed demo articles, published now, an hour ago and two hours
      ago. */
  function DemoArticles(now: int): (r: seq<Article>)
    ensures |r| == 3
    ensures forall k :: 0 <= k < 3 ==> r[k].publishedAt == Some(IsoOf(now - k * Hour)) && r[k].source == "DEMO"
  {
    [Demo1(now), Demo2(now), Demo3(now)]
  }

  /** `getDemoNews(count)`: `demos.slice(0, count)`, so a count of 0, a
      negative count or NaN can leave the list short or empty. */
  function GetDemoNews(count: JsNum, now: int): (r: seq<Article>)
    ensures |r| <= 3
    ensures count.Num? && count.n >= 0 ==> |r| == Min(count.n, 3)
    ensures count.NaN? ==> r == []
    ensures count.Num? && count.n < 0 ==> |r| == (if 3 + count.n > 0 then 3 + count.n else 0)
  {
    SliceTo(DemoArticles(now), count)
  }

  /** The fallback is always the leading part of the fixed demo list. */
  lemma DemoNewsArePrefix(count: JsNum, now: int)
    ensures forall i :: 0 <= i < |GetDemoNews(count, now)| ==> GetDemoNews(count, now)[i] == DemoArticles(now)[i]
  {
  }

  /** The demo articles carry every default field, and distinct ids. */
  lemma DemoArticlesComplete(now: int)
    ensures forall i :: 0 <= i < 3 ==> Complete(DemoArticles(now)[i])
    ensures DistinctIds(DemoArticles(now))
  {
    assert "demo-1"[5] == '1' && "demo-2"[5] == '2' && "demo-3"[5] == '3';
  }
}
