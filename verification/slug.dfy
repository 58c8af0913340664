/**
 * `slugify`: the URL slug the gateway derives from an article title. The
 * Turkish letters are transliterated through a fixed table, the text is
 * lower-cased, every run of characters outside [a-z0-9] becomes one hyphen,
 * hyphens are stripped from both ends and the result is cut to 100
 * characters. A missing or empty title gives the fixed slug `haber`.
 */
module Slug {
  import opened Wrappers
  import opened Text
  import opened Seqs

  const MaxLength := 100
  const FallbackSlug := "haber"

  /** The transliteration table: ç ğ ı ö ş ü and Ç Ğ İ Ö Ş Ü. */
  predicate IsTurkishLetter(c: char) {
    c in "çğıöşüÇĞİÖŞÜ"
  }

  /** Each Turkish letter of the table maps to its ASCII base letter; every
      other character maps to itself. */
  function Fold(c: char): (r: char)
    ensures IsTurkishLetter(c) ==> 'a' <= r <= 'z'
    ensures !IsTurkishLetter(c) ==> r == c
  {
    match c
    case 'ç' => 'c' case 'ğ' => 'g' case 'ı' => 'i' case 'ö' => 'o' case 'ş' => 's' case 'ü' => 'u'
    case 'Ç' => 'c' case 'Ğ' => 'g' case 'İ' => 'i' case 'Ö' => 'o' case 'Ş' => 's' case 'Ü' => 'u'
    case _ => c
  }

  function FoldAll(s: string): (r: string)
    ensures |r| == |s|
    ensures forall i :: 0 <= i < |s| ==> r[i] == Fold(s[i])
  {
    seq(|s|, i requires 0 <= i < |s| => Fold(s[i]))
  }

  /** The characters `[a-z0-9]` that survive into a slug. */
  predicate IsSlugChar(c: char) {
    'a' <= c <= 'z' || '0' <= c <= '9'
  }

  predicate NoDoubleHyphen(s: string) {
    forall i :: 0 <= i < |s| - 1 && s[i] == '-' ==> s[i + 1] != '-'
  }

  /** Every character is in [a-z0-9] or is a hyphen, and no two hyphens are
      adjacent. */
  predicate IsSlugText(s: string) {
    (forall i :: 0 <= i < |s| ==> IsSlugChar(s[i]) || s[i] == '-') && NoDoubleHyphen(s)
  }

  /** Drops the longest prefix of characters outside [a-z0-9]. */
  function DropSeparators(s: string): (r: string)
    ensures |r| <= |s| && r == s[|s| - |r|..]
    ensures forall i :: 0 <= i < |s| - |r| ==> !IsSlugChar(s[i])
    ensures |r| > 0 ==> IsSlugChar(r[0])
    ensures |s| > 0 && !IsSlugChar(s[0]) ==> |r| < |s|
  {
    if |s| > 0 && !IsSlugChar(s[0]) then
      var r := DropSeparators(s[1..]);
      assert forall i :: 1 <= i < |s| ==> s[i] == s[1..][i - 1];
      r
    else s
  }

  /** `.replace(/[^a-z0-9]+/g, '-')`: each maximal run of characters outside
      [a-z0-9] becomes a single hyphen. */
  function Hyphenate(s: string): (r: string)
    ensures IsSlugText(r)
    ensures |r| > 0 && r[0] == '-' ==> |s| > 0 && !IsSlugChar(s[0])
    decreases |s|
  {
    if |s| == 0 then ""
    else if IsSlugChar(s[0]) then [s[0]] + Hyphenate(s[1..])
    else "-" + Hyphenate(DropSeparators(s))
  }

  /** The `^-+` half of `.replace(/^-+|-+$/g, '')`. */
  function StripLeadingHyphens(s: string): (r: string)
    ensures |r| <= |s| && r == s[|s| - |r|..]
    ensures forall i :: 0 <= i < |s| - |r| ==> s[i] == '-'
    ensures |r| > 0 ==> r[0] != '-'
    ensures |s| > 0 && s[0] != '-' ==> r == s
  {
    if |s| > 0 && s[0] == '-' then
      var r := StripLeadingHyphens(s[1..]);
      HyphenThenHyphens(s, r);
      r
    else s
  }

  lemma {:induction false} HyphenThenHyphens(s: string, r: string)
    requires |s| > 0 && s[0] == '-'
    requires |r| <= |s| - 1 && r == s[1..][|s| - 1 - |r|..]
    requires forall i :: 0 <= i < |s| - 1 - |r| ==> s[1..][i] == '-'
    ensures r == s[|s| - |r|..]
    ensures forall i :: 0 <= i < |s| - |r| ==> s[i] == '-'
  {
    forall i | 0 < i < |s| - |r|
      ensures s[i] == '-'
    {
      assert s[i] == s[1..][i - 1];
    }
  }

  /** The `-+$` half of `.replace(/^-+|-+$/g, '')`. */
  function StripTrailingHyphens(s: string): (r: string)
    ensures |r| <= |s| && r == s[..|r|]
    ensures forall i :: |r| <= i < |s| ==> s[i] == '-'
    ensures |r| > 0 ==> r[|r| - 1] != '-'
    ensures |s| > 0 && s[|s| - 1] != '-' ==> r == s
  {
    if |s| > 0 && s[|s| - 1] == '-' then
      var r := StripTrailingHyphens(s[..|s| - 1]);
      assert forall i :: 0 <= i < |s| - 1 ==> s[i] == s[..|s| - 1][i];
      r
    else s
  }

  /** `r` is the piece of `s` that starts at `a`, and everything of `s`
      before and after that piece is a hyphen. */
  predicate HyphensAround(s: string, a: nat, r: string) {
    a + |r| <= |s| && r == s[a..a + |r|] &&
    (forall i :: 0 <= i < a ==> s[i] == '-') &&
    (forall i :: a + |r| <= i < |s| ==> s[i] == '-')
  }

  /** `.replace(/^-+|-+$/g, '')`: hyphens, and only hyphens, are removed from
      both ends. */
  function StripHyphens(s: string): (r: string)
    ensures |r| <= |s|
    ensures |r| > 0 ==> r[0] != '-' && r[|r| - 1] != '-'
    ensures exists a :: HyphensAround(s, a, r)
  {
    var lead := StripLeadingHyphens(s);
    var r := StripTrailingHyphens(lead);
    StripsAround(s, lead, r);
    r
  }

  lemma {:induction false} StripsAround(s: string, lead: string, r: string)
    requires |lead| <= |s| && lead == s[|s| - |lead|..]
    requires forall i :: 0 <= i < |s| - |lead| ==> s[i] == '-'
    requires |r| <= |lead| && r == lead[..|r|]
    requires forall i :: |r| <= i < |lead| ==> lead[i] == '-'
    ensures HyphensAround(s, |s| - |lead|, r)
  {
    var a := |s| - |lead|;
    assert r == s[a..a + |r|];
    forall i | a + |r| <= i < |s|
      ensures s[i] == '-'
    {
      assert s[i] == lead[i - a];
    }
  }

  /** `slugify(text)`. */
  function Slugify(title: Option<string>): (r: string)
    ensures !Truthy(title) ==> r == FallbackSlug
  {
    if !Truthy(title) then FallbackSlug
    else Prefix(StripHyphens(Hyphenate(Lower(FoldAll(title.value)))), MaxLength)
  }

  /** Dropping separators from text that still holds a slug character does
      not reach into what follows it. */
  lemma {:induction false} DropSeparatorsConcat(a: string, b: string)
    requires |DropSeparators(a)| > 0
    ensures DropSeparators(a + b) == DropSeparators(a) + b
    decreases |a|
  {
    if !IsSlugChar(a[0]) {
      assert (a + b)[1..] == a[1..] + b;
      DropSeparatorsConcat(a[1..], b);
    }
  }

  /** A text made only of separators, followed by a slug character, is
      dropped whole. */
  lemma {:induction false} DropSeparatorsAll(a: string, b: string)
    requires |DropSeparators(a)| == 0
    requires |b| == 0 || IsSlugChar(b[0])
    ensures DropSeparators(a + b) == b
    decreases |a|
  {
    if |a| == 0 {
      assert a + b == b;
    } else {
      assert !IsSlugChar(a[0]);
      assert DropSeparators(a) == DropSeparators(a[1..]);
      assert (a + b)[0] == a[0] && (a + b)[1..] == a[1..] + b;
      DropSeparatorsAll(a[1..], b);
      assert DropSeparators(a + b) == DropSeparators(a[1..] + b);
    }
  }

  /** A run of characters outside [a-z0-9] becomes a single hyphen. */
  lemma HyphenateRun(s: string)
    requires |s| > 0 && forall i :: 0 <= i < |s| ==> !IsSlugChar(s[i])
    ensures Hyphenate(s) == "-"
  {
  }

  /** Hyphenating works piece by piece wherever the cut is not inside a run
      of separators. With `HyphenateRun` and `HyphenateKeepsSlugChars` this
      determines the result: slug characters stay, in order, and each run
      of separators between them becomes exactly one hyphen. */
  lemma {:induction false} HyphenateSplit(a: string, b: string)
    requires |a| == 0 || |b| == 0 || IsSlugChar(a[|a| - 1]) || IsSlugChar(b[0])
    ensures Hyphenate(a + b) == Hyphenate(a) + Hyphenate(b)
    decreases |a|, 1
  {
    if |a| == 0 {
      assert a + b == b;
    } else if |b| == 0 {
      assert a + b == a;
    } else if IsSlugChar(a[0]) {
      HyphenateSplitSlugHead(a, b);
    } else {
      HyphenateSplitSeparatorHead(a, b);
    }
  }

  lemma {:induction false} HyphenateSplitSlugHead(a: string, b: string)
    requires |a| > 0 && |b| > 0 && IsSlugChar(a[0])
    requires IsSlugChar(a[|a| - 1]) || IsSlugChar(b[0])
    ensures Hyphenate(a + b) == Hyphenate(a) + Hyphenate(b)
    decreases |a|, 0
  {
    var ab := a + b;
    assert ab[0] == a[0] && ab[1..] == a[1..] + b;
    assert Hyphenate(ab) == [a[0]] + Hyphenate(a[1..] + b);
    HyphenateSplit(a[1..], b);
  }

  lemma {:induction false} HyphenateSplitSeparatorHead(a: string, b: string)
    requires |a| > 0 && |b| > 0 && !IsSlugChar(a[0])
    requires IsSlugChar(a[|a| - 1]) || IsSlugChar(b[0])
    ensures Hyphenate(a + b) == Hyphenate(a) + Hyphenate(b)
    decreases |a|, 0
  {
    HyphenateSeparatorHead(a + b, a);
    HyphenateSeparatorHead(a, a);
    var d := DropSeparators(a);
    if |d| > 0 {
      DropSeparatorsConcat(a, b);
      LastOfSuffix(a, d);
      HyphenateSplit(d, b);
      var hd, hb := Hyphenate(d), Hyphenate(b);
      assert Hyphenate(a + b) == "-" + (hd + hb);
      assert Hyphenate(a) == "-" + hd;
      Associate("-", hd, hb);
    } else {
      DropSeparatorsAll(a, b);
      assert Hyphenate(a) == "-";
    }
  }

  lemma Associate(x: string, y: string, z: string)
    ensures x + (y + z) == (x + y) + z
  {
  }

  /** The unfolding of `Hyphenate` on text that opens with a separator. */
  lemma HyphenateSeparatorHead(s: string, a: string)
    requires |a| > 0 && |s| >= |a| && s[..|a|] == a && !IsSlugChar(a[0])
    ensures Hyphenate(s) == "-" + Hyphenate(DropSeparators(s))
  {
    assert s[0] == a[0];
  }

  lemma LastOfSuffix(a: string, d: string)
    requires 0 < |d| <= |a| && d == a[|a| - |d|..]
    ensures d[|d| - 1] == a[|a| - 1]
  {
  }

  lemma SlugTextSlice(s: string, a: nat, b: nat)
    requires IsSlugText(s) && a <= b <= |s|
    ensures IsSlugText(s[a..b])
  {
    var t := s[a..b];
    forall i | 0 <= i < |t| - 1 && t[i] == '-'
      ensures t[i + 1] != '-'
    {
      assert t[i] == s[a + i] && t[i + 1] == s[a + i + 1];
    }
  }

  /** A title slugifies to text over [a-z0-9-] with no leading hyphen, no
      doubled hyphen and at most 100 characters. */
  lemma SlugShape(title: Option<string>)
    requires Truthy(title)
    ensures var r := Slugify(title);
      |r| <= MaxLength && IsSlugText(r) && (|r| > 0 ==> r[0] != '-')
  {
    var h := Hyphenate(Lower(FoldAll(title.value)));
    var lead := StripLeadingHyphens(h);
    var st := StripTrailingHyphens(lead);
    SlugTextSlice(h, |h| - |lead|, |h|);
    SlugTextSlice(lead, 0, |st|);
    var r := Prefix(st, MaxLength);
    SlugTextSlice(st, 0, |r|);
  }

  /** Every slug, the fallback included, is text over [a-z0-9-] with no
      doubled hyphen. */
  lemma SlugifyIsSlugText(title: Option<string>)
    ensures IsSlugText(Slugify(title))
    ensures |Slugify(title)| <= MaxLength
  {
    if Truthy(title) {
      SlugShape(title);
    } else {
      assert forall i :: 0 <= i < |FallbackSlug| ==> IsSlugChar(FallbackSlug[i]);
    }
  }

  /** A Turkish letter in a title acts exactly as its ASCII base letter: the
      slug is unchanged when one such letter is replaced by its fold. */
  lemma TurkishLetterActsAsBase(s: string, i: nat)
    requires i < |s| && IsTurkishLetter(s[i])
    ensures Slugify(Some(s)) == Slugify(Some(s[i := Fold(s[i])]))
  {
    var t := s[i := Fold(s[i])];
    assert FoldAll(t) == FoldAll(s) by {
      forall k | 0 <= k < |s|
        ensures FoldAll(t)[k] == FoldAll(s)[k]
      {
        if k == i {
          assert Fold(Fold(s[i])) == Fold(s[i]);
        }
      }
    }
  }

  predicate AllSlugChars(s: string) {
    forall i :: 0 <= i < |s| ==> IsSlugChar(s[i])
  }

  lemma {:induction false} LowerKeepsSlugChars(s: string)
    requires AllSlugChars(s)
    ensures Lower(s) == s
  {
    if |s| > 0 {
      assert LowerChar(s[0]) == [s[0]];
      LowerKeepsSlugChars(s[1..]);
    }
  }

  lemma {:induction false} HyphenateKeepsSlugChars(s: string)
    requires AllSlugChars(s)
    ensures Hyphenate(s) == s
  {
    if |s| > 0 {
      HyphenateKeepsSlugChars(s[1..]);
    }
  }

  lemma FoldKeepsSlugChars(s: string)
    requires AllSlugChars(s)
    ensures FoldAll(s) == s
  {
    forall k | 0 <= k < |s|
      ensures FoldAll(s)[k] == s[k]
    {
      assert !IsTurkishLetter(s[k]);
    }
  }

  /** A title that is already a run of [a-z0-9] is its own slug, cut to 100
      characters. */
  lemma CleanTitleIsItsOwnSlug(s: string)
    requires |s| > 0 && AllSlugChars(s)
    ensures Slugify(Some(s)) == Prefix(s, MaxLength)
  {
    FoldKeepsSlugChars(s);
    LowerKeepsSlugChars(s);
    HyphenateKeepsSlugChars(s);
    StripHyphensKeepsClean(s);
    assert Slugify(Some(s)) == Prefix(StripHyphens(Hyphenate(Lower(FoldAll(s)))), MaxLength);
  }

  lemma StripHyphensKeepsClean(s: string)
    requires |s| > 0 && AllSlugChars(s)
    ensures StripHyphens(s) == s
  {
    assert s[0] != '-' && s[|s| - 1] != '-';
    assert StripLeadingHyphens(s) == s;
    assert StripTrailingHyphens(s) == s;
  }
}
