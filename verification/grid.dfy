/**
 * The latest-news grid: a hero card for the first article, up to eleven
 * ordinary cards after it, and a load-more button when more remain.
 */
module Grid {
  import opened Seqs
  import opened Articles

  const Shown := 12

  datatype Layout =
    | EmptyMessage
    | Cards(hero: Article, rest: seq<Article>, loadMore: bool)

  /** The grid for `items`. */
  function Arrange(items: seq<Article>): (r: Layout)
    ensures r.EmptyMessage? <==> |items| == 0
    ensures r.Cards? ==> r.hero == items[0]
    ensures r.Cards? ==> |r.rest| <= Shown - 1
    ensures r.Cards? ==> (r.loadMore <==> |items| > Shown)
  {
    if |items| == 0 then EmptyMessage
    else Cards(items[0], Prefix(items[1..], Shown - 1), |items| > Shown)
  }

  /** The cards shown are the first `min(len, 12)` articles in order, and the
      button appears exactly when some article is not shown. */
  lemma ShownCards(items: seq<Article>)
    requires |items| > 0
    ensures [Arrange(items).hero] + Arrange(items).rest == Prefix(items, Shown)
    ensures 1 + |Arrange(items).rest| == Min(|items|, Shown)
    ensures Arrange(items).loadMore <==> 1 + |Arrange(items).rest| < |items|
  {
    var rest := Arrange(items).rest;
    if |items| <= Shown {
      assert rest == items[1..];
      assert [items[0]] + items[1..] == items;
    } else {
      assert rest == items[1..Shown];
      assert [items[0]] + items[1..Shown] == items[..Shown];
    }
  }
}
