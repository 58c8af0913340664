/**
 * The home page's news feed: the first page is loaded on mount, further
 * pages are appended on demand until a short page arrives, and two themed
 * sections are cut from the loaded items.
 */
module Home {
  import opened Wrappers
  import opened Text
  import opened Seqs
  import opened Articles

  /** Both loads ask the gateway for pages of 20. */
  const PageSize := 20
  const TechLimit := 8
  const WorldLimit := 12

  /** The page's pagination state. */
  datatype Feed = Feed(items: seq<Article>, loading: bool, loadingMore: bool, currentPage: nat, hasMore: bool)

  /** The state before the first load: nothing shown, a load pending, page 1. */
  const Initial := Feed([], true, false, 1, true)

  /** A page is full when it holds at least a page size of articles; only
      then may there be another one. */
  predicate Full(page: seq<Article>) {
    |page| >= PageSize
  }

  /** `loadNews`: `fetched` is the first page, or `None` when the request
      threw. A failed load keeps what was shown and only clears `loading`. */
  function LoadNews(s: Feed, fetched: Option<seq<Article>>): (r: Feed)
    ensures !r.loading && r.loadingMore == s.loadingMore
    ensures fetched.Some? ==> r.items == fetched.value && r.currentPage == 1 && (r.hasMore <==> Full(fetched.value))
    ensures fetched.None? ==> r.items == s.items && r.currentPage == s.currentPage && r.hasMore == s.hasMore
  {
    match fetched
    case None => s.(loading := false)
    case Some(news) => s.(items := news, currentPage := 1, hasMore := |news| >= 20, loading := false)
  }

  /** The first half of `loadMoreNews`: the guard, then the page to request.
      `None` means the call returned at once. */
  function StartLoadMore(s: Feed): (r: (Option<nat>, Feed))
    ensures r.0.None? <==> s.loadingMore || !s.hasMore
    ensures r.0.None? ==> r.1 == s
    ensures r.0.Some? ==> r.0.value == s.currentPage + 1 && r.1 == s.(loadingMore := true)
  {
    if s.loadingMore || !s.hasMore then (None, s)
    else (Some(s.currentPage + 1), s.(loadingMore := true))
  }

  /** The second half of `loadMoreNews`, after the request settles. The
      handler appends to the `items` and `currentPage` it saw when it was
      called (`snapshot`); the other fields are those of the current state
      `now`. `fetched` is `None` when the request threw. */
  function FinishLoadMore(now: Feed, snapshot: Feed, fetched: Option<seq<Article>>): (r: Feed)
    ensures !r.loadingMore && r.loading == now.loading
    ensures fetched.Some? && |fetched.value| > 0 ==>
      r.items == snapshot.items + fetched.value && r.currentPage == snapshot.currentPage + 1 && (r.hasMore <==> Full(fetched.value))
    ensures fetched.Some? && |fetched.value| == 0 ==>
      r.items == now.items && r.currentPage == now.currentPage && !r.hasMore
    ensures fetched.None? ==> r.items == now.items && r.currentPage == now.currentPage && r.hasMore == now.hasMore
  {
    match fetched
    case None => now.(loadingMore := false)
    case Some(more) =>
      if |more| > 0 then
        now.(items := snapshot.items + more, currentPage := snapshot.currentPage + 1,
             hasMore := |more| >= 20, loadingMore := false)
      else now.(hasMore := false, loadingMore := false)
  }

  /** `loadMoreNews` run to completion with nothing else happening meanwhile. */
  function LoadMore(s: Feed, fetched: Option<seq<Article>>): (r: Feed)
    ensures s.loadingMore || !s.hasMore ==> r == s
    ensures !s.loadingMore && s.hasMore ==> !r.loadingMore && r.loading == s.loading
    ensures !s.loadingMore && s.hasMore && fetched.Some? && |fetched.value| > 0 ==>
      r.items == s.items + fetched.value && r.currentPage == s.currentPage + 1 && (r.hasMore <==> Full(fetched.value))
    ensures !s.loadingMore && s.hasMore && fetched.Some? && |fetched.value| == 0 ==>
      r.items == s.items && r.currentPage == s.currentPage && !r.hasMore
  {
    var (page, started) := StartLoadMore(s);
    if page.None? then s else FinishLoadMore(started, s, fetched)
  }

  /** While a load is in flight a second `loadMoreNews` changes nothing and
      requests nothing. */
  lemma InFlightGuard(s: Feed)
    requires StartLoadMore(s).0.Some?
    ensures StartLoadMore(StartLoadMore(s).1) == (None, StartLoadMore(s).1)
  {
  }

  /** Once a page comes back short, the feed is exhausted: further
      `loadMoreNews` calls change nothing until the feed is reloaded. */
  lemma ShortPageEndsFeed(s: Feed, more: seq<Article>, later: Option<seq<Article>>)
    requires !s.loadingMore && s.hasMore && !Full(more)
    ensures var t := LoadMore(s, Some(more));
      !t.hasMore && LoadMore(t, later) == t
  {
  }

  /** Loading more with an uninterrupted run keeps every shown article, in
      order, in front of the new ones, and moves forward exactly one page
      when the page is non-empty. */
  lemma LoadMoreAppends(s: Feed, more: seq<Article>)
    requires !s.loadingMore && s.hasMore
    ensures var t := LoadMore(s, Some(more));
      t.items[..|s.items|] == s.items &&
      t.items[|s.items|..] == more &&
      t.currentPage == (if |more| > 0 then s.currentPage + 1 else s.currentPage) &&
      !t.loadingMore
  {
  }

  /** After the first load and `n` full pages appended one at a time, the
      feed shows `currentPage` pages of 20. */
  lemma {:induction false} FullPagesCount(s: Feed, pages: seq<seq<Article>>)
    requires s.currentPage >= 1 && |s.items| == PageSize * s.currentPage && !s.loadingMore && s.hasMore
    requires forall i :: 0 <= i < |pages| ==> |pages[i]| == PageSize
    ensures var t := LoadPages(s, pages);
      t.currentPage == s.currentPage + |pages| && |t.items| == PageSize * t.currentPage && t.hasMore
    decreases |pages|
  {
    if |pages| > 0 {
      var t := LoadMore(s, Some(pages[0]));
      assert |t.items| == PageSize * t.currentPage;
      FullPagesCount(t, pages[1..]);
    }
  }

  /** `loadMoreNews` called once per page, each run to completion. */
  function LoadPages(s: Feed, pages: seq<seq<Article>>): Feed
    decreases |pages|
  {
    if |pages| == 0 then s else LoadPages(LoadMore(s, Some(pages[0])), pages[1..])
  }

  /** `item.category?.toLowerCase().includes(...)`: every article here has a
      category (the gateway defaults it), so the optional chain never short-circuits. */
  predicate CategoryMentions(a: Article, word: string) {
    Contains(Lower(a.category), word)
  }

  predicate IsTech(a: Article) {
    CategoryMentions(a, "teknoloji") || CategoryMentions(a, "technology")
  }

  predicate IsWorld(a: Article) {
    CategoryMentions(a, "dünya") || CategoryMentions(a, "world") || CategoryMentions(a, "genel")
  }

  /** The `teknoloji` section. */
  function Tech(items: seq<Article>): seq<Article> {
    Prefix(Filter(items, IsTech), TechLimit)
  }

  /** The `dunya` section. */
  function World(items: seq<Article>): seq<Article> {
    Prefix(Filter(items, IsWorld), WorldLimit)
  }

  /** The technology section: at most 8 articles, each with a technology
      category, in feed order, and none of the first 8 such articles left out. */
  lemma TechSection(items: seq<Article>)
    ensures |Tech(items)| <= 8
    ensures forall a :: a in Tech(items) ==> a in items && IsTech(a)
    ensures IsSubsequence(Tech(items), items)
    ensures forall i :: 0 <= i < |items| && IsTech(items[i]) && |Filter(items[..i], IsTech)| < 8 ==> items[i] in Tech(items)
  {
    FirstKFilterSpec(items, IsTech, TechLimit);
  }

  /** The world section: at most 12 articles, each with a world or general
      category, in feed order, and none of the first 12 such articles left out. */
  lemma WorldSection(items: seq<Article>)
    ensures |World(items)| <= 12
    ensures forall a :: a in World(items) ==> a in items && IsWorld(a)
    ensures IsSubsequence(World(items), items)
    ensures forall i :: 0 <= i < |items| && IsWorld(items[i]) && |Filter(items[..i], IsWorld)| < 12 ==> items[i] in World(items)
  {
    FirstKFilterSpec(items, IsWorld, WorldLimit);
  }
}
