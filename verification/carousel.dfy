/**
 * Carousel index arithmetic: the wrap-around steps shared by the hero
 * banner and the recipe card, and the four-card news slider with its
 * indicator dots and headline ticker.
 */
module Carousel {
  import opened Wrappers
  import opened Seqs
  import opened Articles

  // ---------------------------------------------------------------------------
  // Wrap-around steps over n slides
  // ---------------------------------------------------------------------------

  /** `(i + 1) % n`. */
  function Next(i: nat, n: nat): (r: nat)
    requires n > 0
    ensures r < n
  {
    (i + 1) % n
  }

  /** `(i - 1 + n) % n`. */
  function Prev(i: nat, n: nat): (r: nat)
    requires n > 0
    ensures r < n
  {
    (i - 1 + n) % n
  }

  /** On a valid index, a step forward and a step back undo each other. */
  lemma NextPrevUndo(i: nat, n: nat)
    requires i < n
    ensures Prev(Next(i, n), n) == i
    ensures Next(Prev(i, n), n) == i
  {
    BackAfterNext(i, n);
    OnAfterPrev(i, n);
  }

  lemma BackAfterNext(i: nat, n: nat)
    requires i < n
    ensures Prev(Next(i, n), n) == i
  {
    if i + 1 < n {
      Small(i + 1, n);
      Shift(i, n);
    } else {
      Full(n);
      Shift(n - 1, n);
    }
  }

  lemma OnAfterPrev(i: nat, n: nat)
    requires i < n
    ensures Next(Prev(i, n), n) == i
  {
    if i > 0 {
      Shift(i - 1, n);
      Small(i, n);
    } else {
      Shift(n - 1, n);
      Full(n);
    }
  }

  lemma Small(x: int, n: int)
    requires 0 <= x < n
    ensures x % n == x
  {
  }

  lemma Full(n: int)
    requires 0 < n
    ensures n % n == 0
  {
  }

  lemma Shift(x: int, n: int)
    requires 0 <= x < n
    ensures (x + n) % n == x
  {
  }

  /** `k` steps forward. */
  function Advance(i: nat, n: nat, k: nat): (r: nat)
    requires n > 0
    ensures r < n || (k == 0 && r == i)
  {
    if k == 0 then i else Next(Advance(i, n, k - 1), n)
  }

  /** Before the end, `k` steps forward move `k` slides on. */
  lemma {:induction false} AdvanceWithin(i: nat, n: nat, k: nat)
    requires i + k < n
    ensures Advance(i, n, k) == i + k
  {
    if k > 0 {
      AdvanceWithin(i, n, k - 1);
      Small(i + k, n);
    }
  }

  lemma {:induction false} AdvanceCompose(i: nat, n: nat, a: nat, b: nat)
    requires n > 0
    ensures Advance(i, n, a + b) == Advance(Advance(i, n, a), n, b)
  {
    if b > 0 {
      AdvanceCompose(i, n, a, b - 1);
    }
  }

  /** After `n` steps every slide has been shown once and the carousel is back
      where it started. */
  lemma FullCycle(i: nat, n: nat)
    requires i < n
    ensures Advance(i, n, n) == i
    ensures forall k :: 0 < k < n ==> Advance(i, n, k) != i
  {
    AdvanceWithin(i, n, n - 1 - i);
    Full(n);
    assert Advance(i, n, n - i) == 0;
    AdvanceWithin(0, n, i);
    AdvanceCompose(i, n, n - i, i);
    forall k | 0 < k < n
      ensures Advance(i, n, k) != i
    {
      if i + k < n {
        AdvanceWithin(i, n, k);
      } else {
        AdvanceCompose(i, n, n - i, k - (n - i));
        AdvanceWithin(0, n, k - (n - i));
      }
    }
  }

  // ---------------------------------------------------------------------------
  // The news slider: four cards in view
  // ---------------------------------------------------------------------------

  const InView := 4
  const TickerCount := 10

  /** `slideLeft`: from the first card to the last full window, otherwise
      one card back. */
  function SlideLeftAsWritten(i: int, len: nat): int {
    if i == 0 then len - InView else i - 1
  }

  /** `slideRight`: from the last full window back to the first card,
      otherwise one card on. */
  function SlideRight(i: int, len: nat): (r: int)
    ensures i >= 0 ==> r >= 0
  {
    if i >= len - InView then 0 else i + 1
  }

  /** The index of the first card shown in a full window of four. */
  predicate InWindow(i: int, len: nat) {
    0 <= i <= len - InView
  }

  /** With at least four cards both moves keep the index in the window, and
      they undo each other. */
  lemma SlidesStayInWindow(i: int, len: nat)
    requires len >= InView && InWindow(i, len)
    ensures InWindow(SlideLeftAsWritten(i, len), len) && InWindow(SlideRight(i, len), len)
    ensures SlideRight(SlideLeftAsWritten(i, len), len) == i
    ensures SlideLeftAsWritten(SlideRight(i, len), len) == i
  {
  }

  /** With fewer than four cards, `slideLeft` from the start gives a negative
      index, which the track turns into a malformed offset. */
  lemma ShortSliderGoesNegative(len: nat)
    requires 0 < len < InView
    ensures SlideLeftAsWritten(0, len) < 0
  {
  }

  /** The last index the slider can rest on: the last full window, or the
      first card when there are fewer than four. */
  function LastStart(len: nat): nat {
    if len >= InView then len - InView else 0
  }

  /** `slideLeft` kept to the slider: from the first card it goes to the last
      full window, or stays at 0 when there is none. */
  function SlideLeft(i: int, len: nat): (r: int)
    ensures len >= InView ==> r == SlideLeftAsWritten(i, len)
  {
    if i == 0 then LastStart(len) else i - 1
  }

  /** For every list length, both moves keep the index between the first
      card and the last start. */
  lemma SlidesNeverLeave(i: int, len: nat)
    requires 0 <= i <= LastStart(len)
    ensures 0 <= SlideLeft(i, len) <= LastStart(len)
    ensures 0 <= SlideRight(i, len) <= LastStart(len)
  {
  }

  /** `Math.ceil(len / 4)` indicator dots. */
  function DotCount(len: nat): (r: nat)
    ensures len > 0 ==> InView * (r - 1) < len <= InView * r
    ensures len == 0 ==> r == 0
  {
    (len + InView - 1) / InView
  }

  /** Clicking dot `d` moves to its first card. */
  function DotTarget(d: nat): (r: nat)
    ensures ActiveDot(r) == d
  {
    InView * d
  }

  /** `Math.floor(activeIndex / 4)`: the highlighted dot. Division by a
      positive constant floors in both languages. */
  function ActiveDot(i: int): (d: int)
    ensures i >= 0 ==> d >= 0 && InView * d <= i < InView * d + InView
  {
    i / InView
  }

  /** Each dot leads to a card of the list and is the one highlighted
      afterwards; every card lies under one of the dots. */
  lemma DotsMatchCards(len: nat, d: nat, i: nat)
    requires d < DotCount(len)
    requires i < len
    ensures DotTarget(d) < len
    ensures ActiveDot(DotTarget(d)) == d
    ensures 0 <= ActiveDot(i) < DotCount(len)
  {
  }

  /** The headline ticker: the first ten titles, twice, so the loop is seamless. */
  function Ticker(news: seq<Article>): (r: seq<Option<string>>)
    ensures |r| == 2 * Min(TickerCount, |news|)
    ensures forall k :: 0 <= k < Min(TickerCount, |news|) ==> r[k] == news[k].title
    ensures r[..Min(TickerCount, |news|)] == r[Min(TickerCount, |news|)..]
  {
    var titles := seq(Min(TickerCount, |news|), i requires 0 <= i < Min(TickerCount, |news|) => news[i].title);
    titles + titles
  }

  /** What the slider shows: nothing at all for an empty list. */
  datatype SliderView = SliderView(ticker: seq<Option<string>>, dots: nat)

  function Slider(news: seq<Article>): (r: Option<SliderView>)
    ensures r.None? <==> |news| == 0
    ensures r.Some? ==> r.value.dots >= 1 && |r.value.ticker| >= 2
  {
    if |news| == 0 then None else Some(SliderView(Ticker(news), DotCount(|news|)))
  }
}
