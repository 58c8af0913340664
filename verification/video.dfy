/**
 * The video page: every news article becomes a video card whose kind, live
 * badge and embedded video are chosen by its position in the list.
 */
module Video {
  import opened Wrappers
  import opened Seqs
  import opened Articles

  datatype Kind = Live | Documentary | Interview | NewsClip

  /** The filter tabs: everything, or one kind. */
  datatype Tab = All | OnlyKind(kind: Kind)

  /** The embedded videos, used in turn. */
  const YoutubeIds: seq<string> := [
    "w_Ma8oQLmSM", "XWq5kBlakcQ", "dp8PhLsUcFE", "9Auq9mYxFEE",
    "K3VOf3CBGvw", "5VF4aov6_oQ", "jNQXAC9IVRw", "dQw4w9WgXcQ",
    "9bZkp7q19f0", "kJQP7kiw5Fk", "L_jWHffIx5E", "fJ9rUzIMcZQ"]

  const LiveEvery := 5
  const LiveShown := 2

  /** A video card. The random duration and view count are not modelled. */
  datatype Clip = Clip(
    id: nat,
    title: Option<string>,
    thumbnail: string,
    category: string,
    uploadDate: Option<Published>,
    channel: string,
    isLive: bool,
    kind: Kind,
    youtubeId: string)

  /** The kind of the card at `idx`: first match of divisibility by 4, 3, 2. */
  function KindAt(idx: nat): (k: Kind)
    ensures k == Live <==> idx % 4 == 0
    ensures k == Documentary <==> idx % 4 != 0 && idx % 3 == 0
    ensures k == Interview <==> idx % 4 != 0 && idx % 3 != 0 && idx % 2 == 0
    ensures k == NewsClip <==> idx % 4 != 0 && idx % 3 != 0 && idx % 2 != 0
  {
    if idx % 4 == 0 then Live
    else if idx % 3 == 0 then Documentary
    else if idx % 2 == 0 then Interview
    else NewsClip
  }

  /** The upload date as the card reads it: from a `publishDate` field that
      no article has, so it is always missing. */
  function UploadDateAsWritten(a: Article): (r: Option<Published>)
    ensures r.None?
  {
    None
  }

  /** The upload date read from the article's publication time. */
  function UploadDate(a: Article): (r: Option<Published>)
    ensures r.Some? <==> a.publishedAt.Some?
    ensures r.Some? ==> r.value == a.publishedAt.value
  {
    a.publishedAt
  }

  /** An article with a publication time still shows no upload date. */
  lemma UploadDateLost(now: int)
    ensures Demo1(now).publishedAt.Some?
    ensures UploadDateAsWritten(Demo1(now)) != UploadDate(Demo1(now))
  {
  }

  /** The card for the article at position `idx`. */
  function ToClip(a: Article, idx: nat): (c: Clip)
    ensures c.id == idx && c.title == a.title && c.thumbnail == a.image
    ensures c.category == a.category && c.channel == a.author
    ensures c.uploadDate == a.publishedAt
    ensures c.isLive <==> idx % LiveEvery == 0
    ensures c.youtubeId in YoutubeIds
  {
    Clip(idx, a.title, a.image, a.category, UploadDate(a), a.author,
         idx % LiveEvery == 0, KindAt(idx), YoutubeIds[idx % |YoutubeIds|])
  }

  /** `videos`: one card per article, numbered by position. */
  function Clips(news: seq<Article>): (r: seq<Clip>)
    ensures |r| == |news|
    ensures forall i :: 0 <= i < |r| ==> r[i] == ToClip(news[i], i)
  {
    seq(|news|, i requires 0 <= i < |news| => ToClip(news[i], i))
  }

  /** Cards twelve apart embed the same video. */
  lemma EmbedsCycle(news: seq<Article>, i: nat)
    requires i + |YoutubeIds| < |news|
    ensures Clips(news)[i].youtubeId == Clips(news)[i + |YoutubeIds|].youtubeId
  {
    PeriodTwelve(i);
  }

  lemma PeriodTwelve(i: nat)
    ensures (i + 12) % 12 == i % 12
  {
  }

  /** The first twelve cards embed twelve different videos. */
  lemma EmbedsDistinct()
    ensures forall j, k :: 0 <= j < k < |YoutubeIds| ==> YoutubeIds[j] != YoutubeIds[k]
  {
  }

  /** The live badge and the live kind coincide only every twentieth card. */
  lemma LiveBadgeAndKind(idx: nat)
    ensures (KindAt(idx) == Live && idx % LiveEvery == 0) <==> idx % 20 == 0
  {
    if idx % 4 == 0 && idx % 5 == 0 {
      TwentiethOfBoth(idx);
    }
    if idx % 20 == 0 {
      BothOfTwentieth(idx);
    }
  }

  lemma TwentiethOfBoth(idx: nat)
    requires idx % 4 == 0 && idx % 5 == 0
    ensures idx % 20 == 0
  {
    var a := idx / 4;
    assert idx == 4 * a;
    Mod5(a);
    assert idx == 20 * (a / 5);
  }

  lemma BothOfTwentieth(idx: nat)
    requires idx % 20 == 0
    ensures idx % 4 == 0 && idx % 5 == 0
  {
    var b := idx / 20;
    assert idx == 4 * (5 * b) && idx == 5 * (4 * b);
  }

  lemma Mod5(a: nat)
    requires (4 * a) % 5 == 0
    ensures a % 5 == 0
  {
    var q := a / 5;
    var r := a % 5;
    assert a == 5 * q + r;
    assert 4 * a == 5 * (4 * q) + 4 * r;
    assert (4 * r) % 5 == 0 by {
      assert 4 * a - 5 * (4 * q) == 4 * r;
    }
  }

  predicate OfKind(c: Clip, k: Kind) {
    c.kind == k
  }

  /** `filteredVideos`. */
  function Filtered(clips: seq<Clip>, tab: Tab): (r: seq<Clip>)
    ensures tab.All? ==> r == clips
    ensures tab.OnlyKind? ==> forall c :: c in r ==> c in clips && c.kind == tab.kind
    ensures tab.OnlyKind? ==> forall i :: 0 <= i < |clips| && clips[i].kind == tab.kind ==> clips[i] in r
    ensures IsSubsequence(r, clips)
  {
    match tab
    case All =>
      SubsequenceRefl(clips);
      clips
    case OnlyKind(k) =>
      FilterIsSubsequence(clips, c => OfKind(c, k));
      Filter(clips, c => OfKind(c, k))
  }

  /** The live section: the first two cards with the live badge. */
  function LiveSection(clips: seq<Clip>): (r: seq<Clip>)
    ensures |r| <= LiveShown
    ensures forall c :: c in r ==> c in clips && c.isLive
    ensures IsSubsequence(r, clips)
    ensures forall i :: 0 <= i < |clips| && clips[i].isLive && |Filter(clips[..i], (c: Clip) => c.isLive)| < LiveShown ==>
      clips[i] in r
  {
    FirstKFilterSpec(clips, (c: Clip) => c.isLive, LiveShown);
    Prefix(Filter(clips, (c: Clip) => c.isLive), LiveShown)
  }

  /** In a page of news, the live section holds the cards at positions 0 and
      5 once there are six articles. */
  lemma LiveSectionOfPage(news: seq<Article>)
    requires |news| >= 6
    ensures LiveSection(Clips(news)) == [Clips(news)[0], Clips(news)[5]]
  {
    var clips := Clips(news);
    FirstTwoAt0And5(clips, (c: Clip) => c.isLive);
  }

  /** Filtering a sequence whose elements 0 and 5 pass and 1 to 4 do not
      starts with elements 0 and 5. */
  lemma FirstTwoAt0And5<T>(s: seq<T>, p: T -> bool)
    requires |s| >= 6 && p(s[0]) && p(s[5])
    requires !p(s[1]) && !p(s[2]) && !p(s[3]) && !p(s[4])
    ensures Prefix(Filter(s, p), 2) == [s[0], s[5]]
  {
    FilterSkip(s, p, 1);
    FilterSkip(s, p, 2);
    FilterSkip(s, p, 3);
    FilterSkip(s, p, 4);
    FilterKeep(s, p, 5);
    var t := Filter(s[6..], p);
    assert Filter(s[1..], p) == [s[5]] + t;
    assert Filter(s, p) == [s[0]] + Filter(s[1..], p);
    TwoInFront(s[0], s[5], t);
  }

  lemma TwoInFront<T>(x: T, y: T, t: seq<T>)
    ensures Prefix([x] + ([y] + t), 2) == [x, y]
  {
    var u := [x] + ([y] + t);
    assert u[..2] == [x, y];
  }

  lemma FilterSkip<T>(s: seq<T>, p: T -> bool, k: nat)
    requires k < |s| && !p(s[k])
    ensures Filter(s[k..], p) == Filter(s[k + 1..], p)
  {
    assert s[k..][1..] == s[k + 1..];
  }

  lemma FilterKeep<T>(s: seq<T>, p: T -> bool, k: nat)
    requires k < |s| && p(s[k])
    ensures Filter(s[k..], p) == [s[k]] + Filter(s[k + 1..], p)
  {
    assert s[k..][1..] == s[k + 1..];
  }
}
