/**
 * The home page hero banner: five featured slides from the latest news (or
 * one loading placeholder), the category colour tables, and the two rows of
 * headlines that scroll behind it.
 */
module Hero {
  import opened Wrappers
  import opened Seqs
  import opened Articles
  import opened Carousel

  const HeroCount := 5
  const SubtitleLength := 100
  const BackgroundCount := 12
  const RowLength := 6

  const DefaultColor := "from-slate-600 to-gray-900"
  const DefaultStyle := "bg-slate-500/20 text-slate-300 border-slate-400/30"

  /** The gradient behind a featured slide, by category. */
  const Colors: map<string, string> := map[
    "Teknoloji" := "from-purple-600 to-indigo-900",
    "Dünya" := "from-blue-600 to-cyan-900",
    "Ekonomi" := "from-green-600 to-emerald-900",
    "Sağlık" := "from-pink-600 to-rose-900",
    "Bilim" := "from-indigo-600 to-blue-900",
    "Spor" := "from-red-600 to-orange-900",
    "Politika" := "from-red-700 to-gray-900",
    "Çevre" := "from-emerald-600 to-green-900",
    "Eğitim" := "from-amber-600 to-yellow-900",
    "Kültür" := "from-orange-600 to-red-900"]

  /** The badge style of a scrolling headline, by category. */
  const Styles: map<string, string> := map[
    "Politika" := "bg-red-500/20 text-red-300 border-red-400/30",
    "Dünya" := "bg-blue-500/20 text-blue-300 border-blue-400/30",
    "Ekonomi" := "bg-green-500/20 text-green-300 border-green-400/30",
    "Teknoloji" := "bg-purple-500/20 text-purple-300 border-purple-400/30",
    "Bilim" := "bg-indigo-500/20 text-indigo-300 border-indigo-400/30",
    "Sağlık" := "bg-pink-500/20 text-pink-300 border-pink-400/30",
    "Çevre" := "bg-emerald-500/20 text-emerald-300 border-emerald-400/30",
    "Eğitim" := "bg-amber-500/20 text-amber-300 border-amber-400/30",
    "Kültür" := "bg-orange-500/20 text-orange-300 border-orange-400/30",
    "Spor" := "bg-rose-500/20 text-rose-300 border-rose-400/30"]

  /** `getCategoryColor`: the table entry, or slate for any other category.
      Every entry is a non-empty string, so `||` only replaces a missing one. */
  function CategoryColor(category: string): (r: string)
    ensures r in Colors.Values || r == DefaultColor
  {
    if category in Colors then Colors[category] else DefaultColor
  }

  /** `getCategoryStyle`, likewise. */
  function CategoryStyle(category: string): (r: string)
    ensures r in Styles.Values || r == DefaultStyle
  {
    if category in Styles then Styles[category] else DefaultStyle
  }

  /** The default colour and style are used exactly for the categories
      outside the tables, and both tables know the same ten categories. */
  lemma DefaultsOnlyForUnknown(category: string)
    ensures CategoryColor(category) == DefaultColor <==> category !in Colors
    ensures CategoryStyle(category) == DefaultStyle <==> category !in Styles
    ensures Colors.Keys == Styles.Keys
  {
    assert DefaultColor !in Colors.Values;
    assert DefaultStyle !in Styles.Values;
  }

  /** One slide of the banner. Only slides made from articles carry a slug. */
  datatype Slide = Slide(
    title: Option<string>,
    subtitle: string,
    image: string,
    category: string,
    slug: Option<string>,
    color: string)

  const Placeholder := Slide(
    Some("Haberler Yükleniyor..."),
    "En güncel haberler için sayfayı yenileyin",
    "https://images.unsplash.com/photo-1504711434969-e33886168f5c?w=1200&h=600&fit=crop",
    "Genel",
    None,
    DefaultColor)

  /** The slide for one article: its summary cut to a hundred characters and
      followed by an ellipsis. */
  function FeaturedSlide(a: Article): (r: Slide)
    ensures r.title == a.title && r.image == a.image && r.category == a.category
    ensures r.slug == Some(a.slug)
    ensures r.color == CategoryColor(a.category)
    ensures |r.subtitle| == Min(SubtitleLength, |a.summary|) + 3
    ensures a.summary[..Min(SubtitleLength, |a.summary|)] + "..." == r.subtitle
  {
    Slide(a.title, Prefix(a.summary, SubtitleLength) + "...", a.image, a.category,
          Some(a.slug), CategoryColor(a.category))
  }

  /** `heroNews`: the first five articles when there are five, otherwise the
      single loading placeholder. */
  function HeroSlides(latest: seq<Article>): (r: seq<Slide>)
    ensures |latest| >= HeroCount ==> |r| == HeroCount
    ensures |latest| >= HeroCount ==> forall i :: 0 <= i < HeroCount ==> r[i] == FeaturedSlide(latest[i])
    ensures |latest| < HeroCount ==> r == [Placeholder]
    ensures forall i :: 0 <= i < |r| ==> (r[i].slug.Some? <==> |latest| >= HeroCount)
  {
    if |latest| >= HeroCount then seq(HeroCount, i requires 0 <= i < HeroCount => FeaturedSlide(latest[i]))
    else [Placeholder]
  }

  /** The scrolling headlines: the first twelve articles, six in the upper row
      and the rest in the lower. */
  function BackgroundRows(latest: seq<Article>): (r: (seq<Article>, seq<Article>))
    ensures r.0 + r.1 == Prefix(latest, BackgroundCount)
    ensures |r.0| == Min(RowLength, |latest|)
    ensures |r.1| <= RowLength
  {
    var background := Prefix(latest, BackgroundCount);
    (Slice(background, 0, RowLength), Slice(background, RowLength, BackgroundCount))
  }
}
