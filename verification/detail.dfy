/**
 * The article page: the related-news list and the assembly of the body text
 * from the stored summary and content, its cleanup and its split into
 * paragraphs.
 */
module Detail {
  import opened Wrappers
  import opened Text
  import opened Seqs
  import opened Articles

  // ---------------------------------------------------------------------------
  // Related news
  // ---------------------------------------------------------------------------

  const RelatedLimit := 3

  /** Another article on the same topic: same category, different slug. */
  predicate IsRelated(category: string, slug: string, a: Article) {
    a.category == category && a.slug != slug
  }

  function RelatedTest(category: string, slug: string): Article -> bool {
    a => IsRelated(category, slug, a)
  }

  /** The related-news list for the article `shown`, opened under `slug`,
      drawn from the stored list `all`. */
  function Related(all: seq<Article>, shown: Article, slug: string): seq<Article> {
    Prefix(Filter(all, RelatedTest(shown.category, slug)), RelatedLimit)
  }

  /** At most three related articles, each from the stored list with the
      shown article's category and another slug, in stored order, and none
      of the first three such articles left out. */
  lemma RelatedSpec(all: seq<Article>, shown: Article, slug: string)
    ensures |Related(all, shown, slug)| <= 3
    ensures forall a :: a in Related(all, shown, slug) ==>
      a in all && a.category == shown.category && a.slug != slug
    ensures IsSubsequence(Related(all, shown, slug), all)
    ensures forall i ::
      (0 <= i < |all| && IsRelated(shown.category, slug, all[i]) &&
       |Filter(all[..i], RelatedTest(shown.category, slug))| < 3) ==>
      all[i] in Related(all, shown, slug)
  {
    FirstKFilterSpec(all, RelatedTest(shown.category, slug), RelatedLimit);
  }

  // ---------------------------------------------------------------------------
  // The `[+N chars]` marker: /\[\+\d+\s*chars?\]/gi
  // ---------------------------------------------------------------------------

  /** The length of the longest prefix of whitespace (`\s`). */
  function SpaceRun(s: string): (n: nat)
    ensures n <= |s|
  {
    if |s| > 0 && IsSpace(s[0]) then 1 + SpaceRun(s[1..]) else 0
  }

  /** A pattern letter under the `i` flag: the ASCII letter in either case. */
  predicate SameLetter(c: char, lower: char)
    requires 'a' <= lower <= 'z'
  {
    c == lower || c as int == lower as int - 32
  }

  /** `char`, `chars` in any mix of cases, closed by `]`. */
  predicate IsMarkerWord(w: string) {
    (|w| == 5 || (|w| == 6 && SameLetter(w[4], 's'))) &&
    SameLetter(w[0], 'c') && SameLetter(w[1], 'h') && SameLetter(w[2], 'a') && SameLetter(w[3], 'r') &&
    w[|w| - 1] == ']'
  }

  /** The length of the `chars?]` match that starts `s`, or 0. */
  function WordLen(s: string): (n: nat)
    ensures n <= |s|
  {
    if |s| >= 5 && SameLetter(s[0], 'c') && SameLetter(s[1], 'h') && SameLetter(s[2], 'a') && SameLetter(s[3], 'r') then
      if s[4] == ']' then 5
      else if |s| >= 6 && SameLetter(s[4], 's') && s[5] == ']' then 6
      else 0
    else 0
  }

  /** The length of the marker that starts `s`, or 0 when none does. */
  function MarkerLen(s: string): (n: nat)
    ensures n <= |s|
    ensures n > 0 ==> n >= 8 && s[0] == '[' && s[1] == '+' && IsDigit(s[2]) && s[n - 1] == ']'
  {
    if |s| >= 2 && s[0] == '[' && s[1] == '+' then
      var d := DigitRun(s[2..], false);
      if d == 0 then 0
      else
        var w := SpaceRun(s[2 + d..]);
        var c := WordLen(s[2 + d + w..]);
        if c == 0 then 0 else 2 + d + w + c
    else 0
  }

  lemma {:induction false} SpaceRunStops(sp: string, rest: string)
    requires forall i :: 0 <= i < |sp| ==> IsSpace(sp[i])
    requires |rest| == 0 || !IsSpace(rest[0])
    ensures SpaceRun(sp + rest) == |sp|
    decreases |sp|
  {
    if |sp| > 0 {
      assert (sp + rest)[1..] == sp[1..] + rest;
      SpaceRunStops(sp[1..], rest);
    } else {
      assert sp + rest == rest;
    }
  }

  lemma MarkerWordLen(w: string, rest: string)
    requires IsMarkerWord(w)
    ensures WordLen(w + rest) == |w|
  {
    var s := w + rest;
    assert s[..|w|] == w;
  }

  /** `MarkerLen` read off the lengths of its three runs. */
  lemma MarkerLenOfRuns(s: string, d: nat, w: nat, c: nat)
    requires |s| >= 2 && s[0] == '[' && s[1] == '+'
    requires d > 0 && DigitRun(s[2..], false) == d
    requires SpaceRun(s[2 + d..]) == w
    requires WordLen(s[2 + d + w..]) == c > 0
    ensures MarkerLen(s) == 2 + d + w + c
  {
  }

  lemma AfterDigits(digits: string, tail: string)
    requires |digits| > 0 && AllRadixDigits(digits, false)
    requires |tail| > 0 && !IsDigit(tail[0])
    ensures var s := "[+" + (digits + tail);
      |s| >= 2 && s[0] == '[' && s[1] == '+' &&
      DigitRun(s[2..], false) == |digits| && s[2 + |digits|..] == tail
  {
    var s := "[+" + (digits + tail);
    assert s[2..] == digits + tail;
    DigitRunStops(digits, tail);
  }

  lemma AfterSpaces(spaces: string, word: string, rest: string)
    requires forall i :: 0 <= i < |spaces| ==> IsSpace(spaces[i])
    requires IsMarkerWord(word)
    ensures var t := spaces + (word + rest);
      |t| > 0 && !IsDigit(t[0]) && SpaceRun(t) == |spaces| && WordLen(t[|spaces|..]) == |word|
  {
    var t := spaces + (word + rest);
    assert t[|spaces|..] == word + rest;
    assert (word + rest)[0] == word[0];
    SpaceRunStops(spaces, word + rest);
    MarkerWordLen(word, rest);
  }

  /** Every marker is recognised whole: `[+`, one or more digits, optional
      whitespace and the word, whatever follows it. */
  lemma MarkerRecognised(digits: string, spaces: string, word: string, rest: string)
    requires |digits| > 0 && AllRadixDigits(digits, false)
    requires forall i :: 0 <= i < |spaces| ==> IsSpace(spaces[i])
    requires IsMarkerWord(word)
    ensures MarkerLen("[+" + (digits + (spaces + (word + rest)))) == 2 + |digits| + |spaces| + |word|
  {
    var tail := spaces + (word + rest);
    AfterSpaces(spaces, word, rest);
    AfterDigits(digits, tail);
    var s := "[+" + (digits + tail);
    MarkerLenOfRuns(s, |digits|, |spaces|, |word|);
  }

  /** `.replace(/\[\+\d+\s*chars?\]/gi, '')`: the text is scanned left to
      right; each marker found is dropped and the scan resumes after it. */
  function StripMarkers(s: string): (r: string)
    ensures |r| <= |s|
    decreases |s|
  {
    if |s| == 0 then ""
    else if MarkerLen(s) > 0 then StripMarkers(s[MarkerLen(s)..])
    else [s[0]] + StripMarkers(s[1..])
  }

  /** No marker starts anywhere in `s`. */
  predicate MarkerFree(s: string) {
    forall i :: 0 <= i < |s| ==> MarkerLen(s[i..]) == 0
  }

  /** The pass changes the text exactly when the text holds a marker. */
  lemma {:induction false} StripMarkersFixes(s: string)
    ensures StripMarkers(s) == s <==> MarkerFree(s)
    decreases |s|
  {
    if |s| > 0 {
      StripMarkersFixes(s[1..]);
      if MarkerLen(s) > 0 {
        assert |StripMarkers(s)| < |s|;
        assert s[0..] == s;
      } else {
        assert StripMarkers(s) == [s[0]] + StripMarkers(s[1..]);
        if MarkerFree(s[1..]) {
          forall i | 0 <= i < |s|
            ensures MarkerLen(s[i..]) == 0
          {
            if i > 0 { assert s[i..] == s[1..][i - 1..]; } else { assert s[0..] == s; }
          }
        }
        if MarkerFree(s) {
          forall i | 0 <= i < |s| - 1
            ensures MarkerLen(s[1..][i..]) == 0
          {
            assert s[1..][i..] == s[i + 1..];
          }
        }
      }
    }
  }

  /** A text opening with no marker keeps its first character and goes on. */
  lemma HeadKept(s: string)
    requires |s| > 0 && MarkerLen(s) == 0
    ensures StripMarkers(s) == [s[0]] + StripMarkers(s[1..])
  {
  }

  lemma PlainHead(s: string)
    requires |s| > 0 && s[0] != '['
    ensures StripMarkers(s) == [s[0]] + StripMarkers(s[1..])
  {
    HeadKept(s);
  }

  /** The `+`, digits and spaces of a marker opening hold no `[`. */
  lemma PlainOpening(digits: string, spaces: string)
    requires AllRadixDigits(digits, false)
    requires forall i :: 0 <= i < |spaces| ==> IsSpace(spaces[i])
    ensures '[' !in "+" + (digits + spaces)
  {
    var p := "+" + (digits + spaces);
    forall i | 0 <= i < |p|
      ensures p[i] != '['
    {
      if 1 <= i < 1 + |digits| {
        assert p[i] == digits[i - 1];
      } else if i >= 1 + |digits| {
        assert p[i] == spaces[i - 1 - |digits|];
      }
    }
  }

  lemma ConsHead(a: string, b: string)
    requires |a| > 0
    ensures [a[0]] + (a[1..] + b) == a + b
  {
  }

  lemma HeadOfConcat(a: string, b: string)
    requires |a| > 0
    ensures (a + b)[0] == a[0] && (a + b)[1..] == a[1..] + b
  {
  }

  /** Text without `[` passes through the scan untouched, whatever follows. */
  lemma {:induction false} StripPassesPlain(plain: string, t: string)
    requires '[' !in plain
    ensures StripMarkers(plain + t) == plain + StripMarkers(t)
    decreases |plain|
  {
    if |plain| == 0 {
      assert plain + t == t;
    } else {
      var s := plain + t;
      HeadOfConcat(plain, t);
      PlainHead(s);
      assert '[' !in plain[1..];
      StripPassesPlain(plain[1..], t);
      ConsHead(plain, StripMarkers(t));
    }
  }

  /** The trailing marker the news sources append to truncated content is
      removed, and nothing else is, when the body holds no `[`. */
  lemma TrailingMarkerRemoved(body: string, marker: string)
    requires '[' !in body
    requires MarkerLen(marker) == |marker| > 0
    ensures StripMarkers(body + marker) == body
  {
    StripPassesPlain(body, marker);
    assert marker[|marker|..] == "";
  }

  /** A `[` right after the digits and spaces blocks the marker. */
  lemma BlockedMarker(digits: string, spaces: string, t: string)
    requires |digits| > 0 && AllRadixDigits(digits, false)
    requires forall i :: 0 <= i < |spaces| ==> IsSpace(spaces[i])
    requires |t| > 0 && t[0] == '['
    ensures MarkerLen("[+" + (digits + (spaces + t))) == 0
  {
    var tail := spaces + t;
    assert tail[0] == (if |spaces| > 0 then spaces[0] else t[0]);
    AfterDigits(digits, tail);
    SpaceRunStops(spaces, t);
    assert tail[|spaces|..] == t;
  }

  lemma MarkerWordPlain(w: string)
    requires IsMarkerWord(w)
    ensures '[' !in w
  {
    forall i | 0 <= i < |w|
      ensures w[i] != '['
    {
    }
  }

  /** A marker followed by plain text leaves just the plain text. */
  lemma MarkerThenPlain(marker: string, plain: string)
    requires MarkerLen(marker + plain) == |marker| > 0
    requires '[' !in plain
    ensures StripMarkers(marker + plain) == plain
  {
    assert (marker + plain)[|marker|..] == plain;
    StripPassesPlain(plain, "");
    assert plain + "" == plain;
  }

  lemma Reassociate(a: string, b: string, c: string, d: string, e: string)
    ensures (a + (b + (c + d))) + e == a + (b + (c + (d + e)))
  {
  }

  lemma AfterOpeningBracket(digits: string, spaces: string, x: string)
    ensures ("[+" + (digits + (spaces + x)))[1..] == ("+" + (digits + spaces)) + x
  {
  }

  lemma Reopen(digits: string, spaces: string, x: string)
    ensures "[" + (("+" + (digits + spaces)) + x) == "[+" + (digits + (spaces + x))
  {
  }

  lemma NothingAppended(x: string)
    ensures x + "" == x
  {
  }

  /** The scan over an outer marker opening that an inner marker cuts
      short: the outer opening is kept as text, the inner marker dropped. */
  lemma NestedStrip(d1: string, d2: string, spaces: string, word: string)
    requires |d1| > 0 && AllRadixDigits(d1, false) && |d2| > 0 && AllRadixDigits(d2, false)
    requires forall i :: 0 <= i < |spaces| ==> IsSpace(spaces[i])
    requires IsMarkerWord(word)
    ensures var inner := "[+" + (d2 + (spaces + word));
      StripMarkers("[+" + (d1 + (spaces + (inner + word)))) == "[" + (("+" + (d1 + spaces)) + word)
  {
    var inner := "[+" + (d2 + (spaces + word));
    var s := "[+" + (d1 + (spaces + (inner + word)));
    var plain := "+" + (d1 + spaces);
    assert StripMarkers(inner + word) == word by {
      MarkerRecognised(d2, spaces, word, word);
      Reassociate("[+", d2, spaces, word, word);
      MarkerWordPlain(word);
      MarkerThenPlain(inner, word);
    }
    assert StripMarkers(s[1..]) == plain + word by {
      PlainOpening(d1, spaces);
      AfterOpeningBracket(d1, spaces, inner + word);
      StripPassesPlain(plain, inner + word);
    }
    assert MarkerLen(s) == 0 by {
      BlockedMarker(d1, spaces, inner + word);
    }
    HeadKept(s);
  }

  /** One pass is not enough for nested markers: removing the inner marker
      closes up an outer one that the scan has already passed, as in
      `[+1 [+2 chars]chars]`, which becomes `[+1 chars]`. */
  lemma NestedMarkerSurvives(d1: string, d2: string, spaces: string, word: string)
    requires |d1| > 0 && AllRadixDigits(d1, false) && |d2| > 0 && AllRadixDigits(d2, false)
    requires forall i :: 0 <= i < |spaces| ==> IsSpace(spaces[i])
    requires IsMarkerWord(word)
    ensures var inner := "[+" + (d2 + (spaces + word));
      var outer := "[+" + (d1 + (spaces + word));
      StripMarkers("[+" + (d1 + (spaces + (inner + word)))) == outer &&
      MarkerLen(outer) == |outer|
  {
    NestedStrip(d1, d2, spaces, word);
    Reopen(d1, spaces, word);
    MarkerRecognised(d1, spaces, word, "");
    NothingAppended(word);
  }

  // ---------------------------------------------------------------------------
  // Ellipses
  // ---------------------------------------------------------------------------

  const Ellipsis := '\U{2026}'

  /** `.replace(/…$/, '')`: one ellipsis at the very end is dropped. */
  function DropFinalEllipsis(s: string): (r: string)
    ensures |s| > 0 && s[|s| - 1] == Ellipsis ==> r + [Ellipsis] == s
    ensures (|s| == 0 || s[|s| - 1] != Ellipsis) ==> r == s
  {
    if |s| > 0 && s[|s| - 1] == Ellipsis then s[..|s| - 1] else s
  }

  /** The length of the leading run of ellipses. */
  function EllipsisRun(s: string): (n: nat)
    ensures n <= |s|
    ensures |s| > 0 && s[0] == Ellipsis ==> n > 0
  {
    if |s| > 0 && s[0] == Ellipsis then 1 + EllipsisRun(s[1..]) else 0
  }

  /** `.replace(/…+/g, '.')`: each run of ellipses becomes one full stop, so
      no ellipsis is left and the text never grows. */
  function EllipsesToStops(s: string): (r: string)
    ensures Ellipsis !in r
    ensures |r| <= |s|
    decreases |s|
  {
    if |s| == 0 then ""
    else if s[0] == Ellipsis then "." + EllipsesToStops(s[EllipsisRun(s)..])
    else [s[0]] + EllipsesToStops(s[1..])
  }

  /** How a run of ellipses ends: a run that stops inside `a` is not
      lengthened by what follows, and a run that fills `a` stops where `b`
      does not go on with an ellipsis. */
  lemma {:induction false} EllipsisRunConcat(a: string, b: string)
    requires EllipsisRun(a) < |a| || |b| == 0 || b[0] != Ellipsis
    ensures EllipsisRun(a + b) == EllipsisRun(a)
    decreases |a|
  {
    if |a| == 0 {
      assert a + b == b;
    } else if a[0] == Ellipsis {
      assert (a + b)[0] == a[0] && (a + b)[1..] == a[1..] + b;
      EllipsisRunConcat(a[1..], b);
    } else {
      assert (a + b)[0] == a[0];
    }
  }

  /** Ellipses replaced on both sides of a cut that does not fall inside a
      run are the replacement of the whole. */
  lemma {:induction false} EllipsesSplit(a: string, b: string)
    requires |a| == 0 || |b| == 0 || a[|a| - 1] != Ellipsis || b[0] != Ellipsis
    ensures EllipsesToStops(a + b) == EllipsesToStops(a) + EllipsesToStops(b)
    decreases |a|, 1
  {
    if |a| == 0 {
      assert a + b == b;
    } else if a[0] != Ellipsis {
      EllipsesSplitPlainHead(a, b);
    } else {
      EllipsesSplitRunHead(a, b);
    }
  }

  lemma {:induction false} EllipsesSplitPlainHead(a: string, b: string)
    requires |a| > 0 && a[0] != Ellipsis
    requires |b| == 0 || a[|a| - 1] != Ellipsis || b[0] != Ellipsis
    ensures EllipsesToStops(a + b) == EllipsesToStops(a) + EllipsesToStops(b)
    decreases |a|, 0
  {
    assert (a + b)[0] == a[0] && (a + b)[1..] == a[1..] + b;
    EllipsesSplit(a[1..], b);
    var x, y := EllipsesToStops(a[1..]), EllipsesToStops(b);
    assert EllipsesToStops(a + b) == [a[0]] + (x + y);
    assert EllipsesToStops(a) == [a[0]] + x;
  }

  lemma {:induction false} EllipsesSplitRunHead(a: string, b: string)
    requires |a| > 0 && a[0] == Ellipsis
    requires |b| == 0 || a[|a| - 1] != Ellipsis || b[0] != Ellipsis
    ensures EllipsesToStops(a + b) == EllipsesToStops(a) + EllipsesToStops(b)
    decreases |a|, 0
  {
    if EllipsisRun(a) < |a| {
      EllipsesSplit(a[EllipsisRun(a)..], b);
      RunThenMore(a, b);
    } else {
      RunThenRest(a, b);
    }
  }

  /** A run that stops inside `a`: the rest of `a` and `b` are replaced on
      their own. */
  lemma {:induction false} RunThenMore(a: string, b: string)
    requires |a| > 0 && a[0] == Ellipsis && EllipsisRun(a) < |a|
    requires EllipsesToStops(a[EllipsisRun(a)..] + b) == EllipsesToStops(a[EllipsisRun(a)..]) + EllipsesToStops(b)
    ensures EllipsesToStops(a + b) == EllipsesToStops(a) + EllipsesToStops(b)
  {
    assert (a + b)[0] == a[0];
    EllipsisRunConcat(a, b);
    assert (a + b)[EllipsisRun(a)..] == a[EllipsisRun(a)..] + b;
    assert EllipsesToStops(a + b) == "." + (EllipsesToStops(a[EllipsisRun(a)..]) + EllipsesToStops(b));
    assert EllipsesToStops(a) == "." + EllipsesToStops(a[EllipsisRun(a)..]);
  }

  /** A run that fills `a`, which `b` does not continue. */
  lemma {:induction false} RunThenRest(a: string, b: string)
    requires |a| > 0 && a[0] == Ellipsis && EllipsisRun(a) == |a|
    requires |b| == 0 || a[|a| - 1] != Ellipsis || b[0] != Ellipsis
    ensures EllipsesToStops(a + b) == EllipsesToStops(a) + EllipsesToStops(b)
  {
    assert (a + b)[0] == a[0];
    EllipsisRunFills(a);
    EllipsisRunConcat(a, b);
    assert (a + b)[EllipsisRun(a)..] == b;
    assert a[EllipsisRun(a)..] == "";
    assert EllipsesToStops(a) == ".";
  }

  /** A run that fills the text ends in an ellipsis. */
  lemma {:induction false} EllipsisRunFills(a: string)
    requires |a| > 0 && EllipsisRun(a) == |a|
    ensures a[|a| - 1] == Ellipsis
  {
    AllEllipses(a);
  }

  lemma {:induction false} AllEllipses(a: string)
    requires EllipsisRun(a) == |a|
    ensures forall i :: 0 <= i < |a| ==> a[i] == Ellipsis
  {
    if |a| > 0 {
      AllEllipses(a[1..]);
      assert forall i :: 1 <= i < |a| ==> a[i] == a[1..][i - 1];
    }
  }

  /** A whole run of ellipses becomes a single full stop. */
  lemma {:induction false} EllipsisRunToStop(e: string)
    requires |e| > 0 && forall i :: 0 <= i < |e| ==> e[i] == Ellipsis
    ensures EllipsesToStops(e) == "."
  {
    RunOfEllipses(e);
    assert e[|e|..] == "";
  }

  lemma {:induction false} RunOfEllipses(e: string)
    requires forall i :: 0 <= i < |e| ==> e[i] == Ellipsis
    ensures EllipsisRun(e) == |e|
  {
    if |e| > 0 {
      assert forall i :: 0 <= i < |e| - 1 ==> e[1..][i] == e[i + 1];
      RunOfEllipses(e[1..]);
    }
  }

  /** A text without ellipses is left as it is. */
  lemma {:induction false} NoEllipsisUnchanged(s: string)
    requires Ellipsis !in s
    ensures EllipsesToStops(s) == s
    decreases |s|
  {
    if |s| > 0 {
      assert s[0] != Ellipsis;
      assert Ellipsis !in s[1..];
      NoEllipsisUnchanged(s[1..]);
      ConsHead(s, "");
      assert s + "" == s;
    }
  }

  // ---------------------------------------------------------------------------
  // Assembling the body text
  // ---------------------------------------------------------------------------

  /** The content as it is cleaned before it is considered: markers gone, one
      final ellipsis gone, whitespace trimmed. */
  function CleanContent(content: string): (r: string)
    ensures IsTrimmed(r) && |r| <= |content|
  {
    Trim(DropFinalEllipsis(StripMarkers(content)))
  }

  /** The content is worth adding: present, different from the summary,
      non-empty once cleaned and not already part of the summary. */
  predicate AddsContent(summary: string, content: Option<string>) {
    Truthy(content) && content.value != summary &&
    CleanContent(content.value) != "" && !Contains(summary, CleanContent(content.value))
  }

  /** The text before the final cleanup: the summary, then the cleaned
      content after a blank line when it adds something. */
  function Combined(summary: string, content: Option<string>): (r: string)
    ensures AddsContent(summary, content) ==> r == summary + "\n\n" + CleanContent(content.value)
    ensures !AddsContent(summary, content) ==> r == summary
  {
    if Truthy(content) && content.value != summary then
      var clean := CleanContent(content.value);
      if clean != "" && !Contains(summary, clean) then summary + "\n\n" + clean else summary
    else summary
  }

  /** Content that differs from the summary is never lost: its cleaned form
      was already in the summary or is appended to it. */
  lemma ContentNeverLost(summary: string, content: Option<string>)
    requires Truthy(content) && content.value != summary
    ensures Contains(Combined(summary, content), CleanContent(content.value))
  {
    var clean := CleanContent(content.value);
    if AddsContent(summary, content) {
      ContainsTail(summary + "\n\n", clean);
    } else if clean == "" {
      ContainsEmpty(summary);
    }
  }

  lemma ContainsTail(a: string, b: string)
    ensures Contains(a + b, b)
  {
    assert (a + b)[|a|..|a| + |b|] == b;
    assert MatchesAt(a + b, b, |a|);
  }

  lemma ContainsEmpty(s: string)
    ensures Contains(s, "")
  {
    assert MatchesAt(s, "", 0);
  }

  /** The body text: the combined text with markers removed, runs of
      ellipses turned into full stops, and whitespace trimmed. */
  function FullText(summary: string, content: Option<string>): (r: string)
    ensures IsTrimmed(r) && Ellipsis !in r
  {
    var t := Combined(summary, content);
    TrimKeepsAbsent(EllipsesToStops(StripMarkers(t)), Ellipsis);
    Trim(EllipsesToStops(StripMarkers(t)))
  }

  /** Text that needs no cleanup: trimmed, without `[` or an ellipsis. */
  predicate IsClean(t: string) {
    IsTrimmed(t) && '[' !in t && Ellipsis !in t
  }

  /** Cleanup leaves clean text as it is. */
  lemma {:induction false} CleanupKeepsClean(t: string)
    requires IsClean(t)
    ensures Trim(EllipsesToStops(StripMarkers(t))) == t
  {
    StripPassesPlain(t, "");
    assert t + "" == t;
    assert StripMarkers("") == "";
    NoEllipsisUnchanged(t);
  }

  /** A clean summary with nothing to add is its own body text. */
  lemma {:induction false} FullTextOfSummary(summary: string, content: Option<string>)
    requires IsClean(summary) && !AddsContent(summary, content)
    ensures FullText(summary, content) == summary
  {
    CleanupKeepsClean(summary);
  }

  /** A clean, non-empty summary followed by content whose cleaned form is
      also clean: the body text is the two after a blank line. */
  lemma {:induction false} FullTextAppendsContent(summary: string, content: Option<string>)
    requires |summary| > 0 && IsClean(summary) && AddsContent(summary, content)
    requires '[' !in CleanContent(content.value) && Ellipsis !in CleanContent(content.value)
    ensures FullText(summary, content) == summary + "\n\n" + CleanContent(content.value)
  {
    var clean := CleanContent(content.value);
    CleanJoin(summary, clean);
    CleanupKeepsClean(summary + "\n\n" + clean);
  }

  lemma {:induction false} CleanJoin(a: string, b: string)
    requires |a| > 0 && IsClean(a) && |b| > 0 && IsTrimmed(b) && '[' !in b && Ellipsis !in b
    ensures IsClean(a + "\n\n" + b)
  {
    var t := a + "\n\n" + b;
    assert t[0] == a[0] && t[|t| - 1] == b[|b| - 1];
    assert '[' !in "\n\n" && Ellipsis !in "\n\n";
  }

  /** Trimming removes characters, never adds one. */
  lemma TrimKeepsAbsent(s: string, c: char)
    requires c !in s
    ensures c !in Trim(s)
  {
    var a := TrimStart(s);
    SliceKeepsAbsent(s, |s| - |a|, |s|, c);
    var b := TrimEnd(a);
    SliceKeepsAbsent(a, 0, |b|, c);
    assert Trim(s) == b;
  }

  lemma SliceKeepsAbsent(s: string, i: nat, j: nat, c: char)
    requires i <= j <= |s| && c !in s
    ensures c !in s[i..j]
  {
  }

  // ---------------------------------------------------------------------------
  // Paragraphs: .split(/\n\n+/).map(p => p.trim()).filter(p => p.length > 15)
  // ---------------------------------------------------------------------------

  /** Two newlines start at index `i`. */
  predicate BlankLineAt(s: string, i: nat) {
    i + 1 < |s| && s[i] == '\n' && s[i + 1] == '\n'
  }

  predicate NoBlankLine(s: string) {
    forall i :: 0 <= i < |s| ==> !BlankLineAt(s, i)
  }

  /** The index of the first blank line, or the length when there is none. */
  function FirstBlankLine(s: string): (i: nat)
    ensures i <= |s|
    ensures i < |s| ==> BlankLineAt(s, i)
    ensures forall k :: 0 <= k < i ==> !BlankLineAt(s, k)
  {
    if |s| < 2 then |s|
    else if s[0] == '\n' && s[1] == '\n' then 0
    else
      var j := FirstBlankLine(s[1..]);
      assert forall k :: 0 <= k < 1 + j ==> !BlankLineAt(s, k) by {
        forall k | 0 <= k < 1 + j
          ensures !BlankLineAt(s, k)
        {
          if k > 0 {
            assert !BlankLineAt(s[1..], k - 1);
          }
        }
      }
      1 + j
  }

  /** The length of the leading run of newlines. */
  function NewlineRun(s: string): (n: nat)
    ensures n <= |s|
    ensures BlankLineAt(s, 0) ==> n >= 2
  {
    if |s| > 0 && s[0] == '\n' then 1 + NewlineRun(s[1..]) else 0
  }

  /** `.split(/\n\n+/)`: the pieces between the runs of two or more newlines;
      there is always at least one piece and none holds a blank line. */
  function SplitBlankLines(s: string): (r: seq<string>)
    ensures |r| >= 1
    ensures forall k :: 0 <= k < |r| ==> NoBlankLine(r[k])
    decreases |s|
  {
    var i := FirstBlankLine(s);
    if i == |s| then [s]
    else
      PrefixBeforeBlank(s, i);
      [s[..i]] + SplitBlankLines(s[i + NewlineRun(s[i..])..])
  }

  lemma PrefixBeforeBlank(s: string, i: nat)
    requires i <= |s|
    requires forall k :: 0 <= k < i ==> !BlankLineAt(s, k)
    ensures NoBlankLine(s[..i])
  {
    forall k | 0 <= k < i
      ensures !BlankLineAt(s[..i], k)
    {
      assert !BlankLineAt(s, k);
      if k + 1 < i {
        assert s[..i][k] == s[k] && s[..i][k + 1] == s[k + 1];
      }
    }
  }

  /** A text splits into a single piece exactly when it has no blank line. */
  lemma SplitIsSingle(s: string)
    ensures |SplitBlankLines(s)| == 1 <==> NoBlankLine(s)
  {
    var i := FirstBlankLine(s);
    if i < |s| {
      assert BlankLineAt(s, i);
      assert |SplitBlankLines(s)| >= 2;
    }
  }

  /** A piece that survives a split as it is: non-empty, no newline at
      either end and no blank line inside. */
  predicate IsPiece(p: string) {
    |p| > 0 && p[0] != '\n' && p[|p| - 1] != '\n' && NoBlankLine(p)
  }

  /** `ps.join('\n\n')`. */
  function JoinBlankLines(ps: seq<string>): (r: string)
    ensures |ps| > 0 ==> |ps[0]| <= |r| && r[..|ps[0]|] == ps[0]
  {
    if |ps| == 0 then ""
    else if |ps| == 1 then ps[0]
    else ps[0] + "\n\n" + JoinBlankLines(ps[1..])
  }

  /** Splitting pieces joined by blank lines gives the pieces back. */
  lemma {:induction false} SplitJoin(ps: seq<string>)
    requires |ps| > 0 && forall k :: 0 <= k < |ps| ==> IsPiece(ps[k])
    ensures SplitBlankLines(JoinBlankLines(ps)) == ps
  {
    var p := ps[0];
    if |ps| == 1 {
      FirstBlankLineNone(p);
    } else {
      var rest := JoinBlankLines(ps[1..]);
      assert rest[..|ps[1]|] == ps[1];
      assert rest[0] == ps[1][0];
      SplitJoinStep(p, rest);
      SplitJoin(ps[1..]);
    }
  }

  lemma {:induction false} FirstBlankLineNone(s: string)
    requires NoBlankLine(s)
    ensures SplitBlankLines(s) == [s]
  {
    assert FirstBlankLine(s) == |s|;
  }

  /** The first blank line of `p + "\n\n" + rest` is the one after `p`. */
  lemma {:induction false} SplitJoinStep(p: string, rest: string)
    requires IsPiece(p) && |rest| > 0 && rest[0] != '\n'
    ensures SplitBlankLines(p + "\n\n" + rest) == [p] + SplitBlankLines(rest)
  {
    var s := p + "\n\n" + rest;
    forall k | 0 <= k < |p|
      ensures !BlankLineAt(s, k)
    {
      if k + 1 < |p| {
        assert !BlankLineAt(p, k);
      }
    }
    assert BlankLineAt(s, |p|);
    var i := FirstBlankLine(s);
    assert i == |p|;
    var tail := s[i..];
    assert tail == "\n\n" + rest;
    assert tail[1..][1..] == rest;
    assert NewlineRun(tail[1..][1..]) == 0;
    assert NewlineRun(tail) == 2;
    assert s[..i] == p;
    assert s[i + 2..] == rest;
  }

  function TrimAll(ps: seq<string>): (r: seq<string>)
    ensures |r| == |ps|
    ensures forall i :: 0 <= i < |ps| ==> r[i] == Trim(ps[i])
  {
    seq(|ps|, i requires 0 <= i < |ps| => Trim(ps[i]))
  }

  predicate Substantial(p: string) {
    |p| > 15
  }

  /** A paragraph as the page keeps it: trimmed and over 15 characters. */
  predicate IsParagraph(p: string) {
    IsTrimmed(p) && Substantial(p)
  }

  /** The blank-line paragraphs of the body text. */
  function BlankLineParagraphs(text: string): (r: seq<string>)
    ensures forall p :: p in r ==> IsParagraph(p)
    ensures |r| <= |SplitBlankLines(text)|
  {
    var pieces := TrimAll(SplitBlankLines(text));
    assert forall p :: p in pieces ==> IsTrimmed(p);
    Filter(pieces, Substantial)
  }

  /** The paragraphs are the trimmed pieces over 15 characters: in the order
      of the pieces, and none of them left out. */
  lemma {:induction false} ParagraphsKept(text: string)
    ensures IsSubsequence(BlankLineParagraphs(text), TrimAll(SplitBlankLines(text)))
    ensures forall k :: 0 <= k < |SplitBlankLines(text)| && Substantial(Trim(SplitBlankLines(text)[k])) ==>
      Trim(SplitBlankLines(text)[k]) in BlankLineParagraphs(text)
  {
    var pieces := TrimAll(SplitBlankLines(text));
    FilterIsSubsequence(pieces, Substantial);
    forall k | 0 <= k < |SplitBlankLines(text)| && Substantial(Trim(SplitBlankLines(text)[k]))
      ensures Trim(SplitBlankLines(text)[k]) in BlankLineParagraphs(text)
    {
      assert pieces[k] == Trim(SplitBlankLines(text)[k]);
    }
  }

  // ---------------------------------------------------------------------------
  // Sentences: .match(/[^.!?]+[.!?]+/g)
  // ---------------------------------------------------------------------------

  predicate IsStop(c: char) {
    c == '.' || c == '!' || c == '?'
  }

  /** The length of the leading run of characters other than `.`, `!`, `?`. */
  function TextRun(s: string): (n: nat)
    ensures n <= |s|
    ensures n < |s| ==> IsStop(s[n])
    ensures |s| > 0 && !IsStop(s[0]) ==> n > 0
    ensures forall k :: 0 <= k < n ==> !IsStop(s[k])
  {
    if |s| > 0 && !IsStop(s[0]) then 1 + TextRun(s[1..]) else 0
  }

  /** The length of the leading run of `.`, `!`, `?`. */
  function StopRun(s: string): (n: nat)
    ensures n <= |s|
    ensures n < |s| ==> !IsStop(s[n])
    ensures |s| > 0 && IsStop(s[0]) ==> n > 0
    ensures forall k :: 0 <= k < n ==> IsStop(s[k])
  {
    if |s| > 0 && IsStop(s[0]) then 1 + StopRun(s[1..]) else 0
  }

  /** A sentence as the pattern matches it: text, then stops, and no stop
      followed by text. */
  predicate IsSentence(x: string) {
    |x| >= 2 && !IsStop(x[0]) && IsStop(x[|x| - 1]) &&
    forall i, j :: 0 <= i < j < |x| && IsStop(x[i]) ==> IsStop(x[j])
  }

  /** The `n` characters of text and `t` stops at the head of `s` form a
      sentence. */
  lemma {:induction false} HeadIsSentence(s: string, n: nat, t: nat)
    requires 0 < n && 0 < t && n + t <= |s|
    requires forall k :: 0 <= k < n ==> !IsStop(s[k])
    requires forall k :: 0 <= k < t ==> IsStop(s[n..][k])
    ensures IsSentence(s[..n + t])
  {
    var x := s[..n + t];
    forall i, j | 0 <= i < j < |x| && IsStop(x[i])
      ensures IsStop(x[j])
    {
      assert x[i] == s[i];
      assert i >= n;
      assert x[j] == s[n..][j - n];
    }
    assert x[0] == s[0];
    assert x[|x| - 1] == s[n..][t - 1];
  }

  /** The global match: stops with no text before them are skipped, and
      text with no stop after it is not a sentence. */
  function Sentences(s: string): seq<string>
    decreases |s|
  {
    if |s| == 0 then []
    else if IsStop(s[0]) then Sentences(s[1..])
    else if TextRun(s) == |s| then []
    else [s[..SentenceEnd(s)]] + Sentences(s[SentenceEnd(s)..])
  }

  /** Where the sentence at the head of `s` ends: after its text and the
      stops that follow. */
  function SentenceEnd(s: string): (e: nat)
    ensures TextRun(s) <= e <= |s|
  {
    TextRun(s) + StopRun(s[TextRun(s)..])
  }

  /** Every match is a sentence: text, then stops. */
  lemma {:induction false} SentencesAreSentences(s: string)
    ensures forall k :: 0 <= k < |Sentences(s)| ==> IsSentence(Sentences(s)[k])
    decreases |s|
  {
    if |s| > 0 {
      if IsStop(s[0]) {
        SentencesAreSentences(s[1..]);
      } else if TextRun(s) < |s| {
        SentencesAreSentences(s[TextRun(s) + StopRun(s[TextRun(s)..])..]);
        SentencesStep(s, TextRun(s), StopRun(s[TextRun(s)..]), s[TextRun(s) + StopRun(s[TextRun(s)..])..]);
      }
    }
  }

  /** A text that opens with a sentence has sentences for matches when the
      rest after it does. */
  lemma {:induction false} SentencesStep(s: string, n: nat, t: nat, rest: string)
    requires |s| > 0 && !IsStop(s[0]) && n == TextRun(s) && n < |s| && t == StopRun(s[n..])
    requires rest == s[n + t..]
    requires forall k :: 0 <= k < |Sentences(rest)| ==> IsSentence(Sentences(rest)[k])
    ensures forall k :: 0 <= k < |Sentences(s)| ==> IsSentence(Sentences(s)[k])
  {
    HeadIsSentence(s, n, t);
    SentencesHead(s, n, t);
  }

  /** The sentences laid end to end. */
  function Concat(xs: seq<string>): string {
    if |xs| == 0 then "" else xs[0] + Concat(xs[1..])
  }

  lemma ConcatCons(x: string, xs: seq<string>)
    ensures Concat([x] + xs) == x + Concat(xs)
  {
    assert ([x] + xs)[1..] == xs;
  }

  lemma SplitAt(s: string, k: nat)
    requires k <= |s|
    ensures s[..k] + s[k..] == s
  {
  }

  /** A text that opens with text and closes with a stop is exactly its
      sentences laid end to end: nothing is dropped. */
  lemma {:induction false} SentencesCoverText(s: string)
    requires |s| > 0 ==> !IsStop(s[0]) && IsStop(s[|s| - 1])
    ensures Concat(Sentences(s)) == s
    decreases |s|
  {
    if |s| > 0 {
      var n := TextRun(s);
      assert n < |s|;
      var t := StopRun(s[n..]);
      var rest := s[n + t..];
      assert |rest| > 0 ==> rest[0] == s[n..][t] && rest[|rest| - 1] == s[|s| - 1];
      SentencesCoverText(rest);
      ConcatCons(s[..n + t], Sentences(rest));
      SplitAt(s, n + t);
    }
  }

  /** Whatever `s` is, it is stops, then text that opens with text and
      closes with a stop, then text with no stop; the sentences are exactly
      that middle part, laid end to end. */
  lemma {:induction false} SentencesOfText(lead: string, core: string, tail: string)
    requires forall k :: 0 <= k < |lead| ==> IsStop(lead[k])
    requires |core| > 0 ==> !IsStop(core[0]) && IsStop(core[|core| - 1])
    requires forall k :: 0 <= k < |tail| ==> !IsStop(tail[k])
    ensures Concat(Sentences(lead + core + tail)) == core
  {
    var rest := core + tail;
    Assoc(lead, core, tail);
    SkipStops(lead, rest);
    DropTail(core, tail);
    var ss := Sentences(core);
    assert Sentences(lead + core + tail) == ss;
    SentencesCoverText(core);
  }

  lemma {:induction false} Assoc(a: string, b: string, c: string)
    ensures a + b + c == a + (b + c)
  {
  }

  /** Stops with no text before them start no sentence. */
  lemma {:induction false} SkipStops(lead: string, x: string)
    requires forall k :: 0 <= k < |lead| ==> IsStop(lead[k])
    ensures Sentences(lead + x) == Sentences(x)
  {
    if |lead| == 0 {
      assert lead + x == x;
    } else {
      var s := lead + x;
      assert s[0] == lead[0] && s[1..] == lead[1..] + x;
      assert forall k :: 0 <= k < |lead| - 1 ==> lead[1..][k] == lead[k + 1];
      SkipStops(lead[1..], x);
      assert Sentences(s) == Sentences(s[1..]);
    }
  }

  /** Text with no stop after the last stop adds no sentence. */
  lemma {:induction false} DropTail(core: string, tail: string)
    requires |core| > 0 ==> IsStop(core[|core| - 1])
    requires forall k :: 0 <= k < |tail| ==> !IsStop(tail[k])
    ensures Sentences(core + tail) == Sentences(core)
    decreases |core|, 1
  {
    var s := core + tail;
    if |core| == 0 {
      assert s == tail;
      NoStopNoSentence(tail);
    } else if IsStop(core[0]) {
      assert s[0] == core[0] && s[1..] == core[1..] + tail;
      DropTail(core[1..], tail);
      assert Sentences(s) == Sentences(s[1..]);
    } else {
      DropTailTextHead(core, tail);
    }
  }

  lemma {:induction false} DropTailTextHead(core: string, tail: string)
    requires |core| > 0 && !IsStop(core[0]) && IsStop(core[|core| - 1])
    requires forall k :: 0 <= k < |tail| ==> !IsStop(tail[k])
    ensures Sentences(core + tail) == Sentences(core)
    decreases |core|, 0
  {
    var s := core + tail;
    var n := TextRun(core);
    var t := StopRun(core[n..]);
    RunsOfConcat(core, tail);
    var rest := core[n + t..];
    assert |rest| > 0 ==> rest[|rest| - 1] == core[|core| - 1];
    DropTail(rest, tail);
    SentencesHeadOfConcat(core, tail, n, t);
  }

  /** The first sentence of `core` is the first of `core + tail`. */
  lemma {:induction false} RunsOfConcat(core: string, tail: string)
    requires |core| > 0 && !IsStop(core[0]) && IsStop(core[|core| - 1])
    requires |tail| == 0 || !IsStop(tail[0])
    ensures TextRun(core) < |core|
    ensures TextRun(core + tail) == TextRun(core)
    ensures StopRun((core + tail)[TextRun(core)..]) == StopRun(core[TextRun(core)..])
  {
    var n := TextRun(core);
    TextRunConcat(core, tail);
    var mid := core[n..];
    assert mid[|mid| - 1] == core[|core| - 1];
    CutConcat(core, tail, n);
    var after, joined := (core + tail)[n..], mid + tail;
    assert after == joined;
    StopRunConcat(mid, tail);
    assert StopRun(after) == StopRun(joined);
  }

  lemma {:induction false} SentencesHeadOfConcat(core: string, tail: string, n: nat, t: nat)
    requires |core| > 0 && !IsStop(core[0]) && n == TextRun(core) && n < |core|
    requires t == StopRun(core[n..]) && TextRun(core + tail) == n
    requires StopRun((core + tail)[n..]) == t
    requires Sentences(core[n + t..] + tail) == Sentences(core[n + t..])
    ensures Sentences(core + tail) == Sentences(core)
  {
    var h := core[..n + t];
    var rest := Sentences(core[n + t..]);
    FirstSentenceOfConcat(core, tail, n, t);
    SentencesHead(core, n, t);
  }

  lemma {:induction false} FirstSentenceOfConcat(core: string, tail: string, n: nat, t: nat)
    requires |core| > 0 && !IsStop(core[0]) && n < |core| && n + t <= |core|
    requires TextRun(core + tail) == n && StopRun((core + tail)[n..]) == t
    ensures Sentences(core + tail) == [core[..n + t]] + Sentences(core[n + t..] + tail)
  {
    var s := core + tail;
    assert s[0] == core[0];
    CutConcat(core, tail, n + t);
    var after, rest := s[n + t..], core[n + t..] + tail;
    assert after == rest;
    var x, y := Sentences(after), Sentences(rest);
    assert x == y;
    SentencesHead(s, n, t);
    assert Sentences(s) == [core[..n + t]] + x;
  }

  lemma {:induction false} CutConcat(a: string, b: string, i: nat)
    requires i <= |a|
    ensures (a + b)[..i] == a[..i] && (a + b)[i..] == a[i..] + b
  {
  }

  /** One step of the global match on a text that opens with text. */
  lemma {:induction false} SentencesHead(s: string, n: nat, t: nat)
    requires |s| > 0 && !IsStop(s[0]) && n == TextRun(s) && n < |s| && t == StopRun(s[n..])
    ensures Sentences(s) == [s[..n + t]] + Sentences(s[n + t..])
  {
    assert SentenceEnd(s) == n + t;
  }

  lemma {:induction false} TextRunConcat(a: string, b: string)
    requires |a| > 0 && IsStop(a[|a| - 1])
    ensures TextRun(a + b) == TextRun(a)
  {
    if !IsStop(a[0]) {
      assert (a + b)[0] == a[0] && (a + b)[1..] == a[1..] + b;
      TextRunConcat(a[1..], b);
    } else {
      assert (a + b)[0] == a[0];
    }
  }

  lemma {:induction false} StopRunConcat(a: string, b: string)
    requires |a| > 0 && IsStop(a[|a| - 1])
    requires |b| == 0 || !IsStop(b[0])
    ensures StopRun(a + b) == StopRun(a)
  {
    if IsStop(a[0]) {
      assert (a + b)[0] == a[0] && (a + b)[1..] == a[1..] + b;
      if |a| > 1 {
        StopRunConcat(a[1..], b);
      } else {
        assert a[1..] + b == b;
      }
    } else {
      assert (a + b)[0] == a[0];
    }
  }

  /** A text with no `.`, `!` or `?` has no sentence. */
  lemma {:induction false} NoStopNoSentence(s: string)
    requires forall k :: 0 <= k < |s| ==> !IsStop(s[k])
    ensures Sentences(s) == []
  {
    if |s| > 0 {
      assert TextRun(s) == |s|;
    }
  }

  // ---------------------------------------------------------------------------
  // Regrouping one long paragraph
  // ---------------------------------------------------------------------------

  /** The paragraph text that starts at trimmed sentence `i`, before its own
      trim: sentences `i` and `i + 1` each followed by a space, or sentence
      `i` alone when it is the last. */
  function Joined(ts: seq<string>, i: nat): string
    requires i < |ts|
  {
    if i + 1 < |ts| then ts[i] + " " + ts[i + 1] + " " else ts[i] + " "
  }

  /** Consecutive trimmed sentences joined in pairs, before the trim. */
  function RawPairs(ts: seq<string>): (r: seq<string>)
    ensures |r| == (|ts| + 1) / 2
  {
    seq((|ts| + 1) / 2, j requires 0 <= j < (|ts| + 1) / 2 => Joined(ts, 2 * j))
  }

  /** Consecutive sentences joined in pairs, a last odd one on its own. */
  function Pairs(ss: seq<string>): (r: seq<string>)
    ensures |r| == (|ss| + 1) / 2
  {
    TrimAll(RawPairs(TrimAll(ss)))
  }

  /** The `forEach` that regroups the sentences: each trimmed sentence and a
      space go into the current paragraph, which is closed after every second
      sentence and after the last. */
  method GroupSentences(ss: seq<string>) returns (paras: seq<string>)
    ensures paras == Pairs(ss)
    ensures |paras| == (|ss| + 1) / 2
  {
    var groups := GroupTrimmed(TrimAll(ss));
    paras := TrimAll(groups);
  }

  /** The loop of `GroupSentences` over sentences already trimmed; closing a
      paragraph is left to the caller's trim. */
  method GroupTrimmed(ts: seq<string>) returns (groups: seq<string>)
    ensures groups == RawPairs(ts)
  {
    groups := [];
    var current := "";
    var idx := 0;
    ghost var pending := false;
    while idx < |ts|
      invariant 0 <= idx <= |ts|
      invariant 2 * |groups| <= idx + 1
      invariant GroupsSoFar(ts, groups)
      invariant pending ==> idx == 2 * |groups| + 1 && idx < |ts| && current == ts[idx - 1] + " "
      invariant !pending ==> current == "" && (idx == 2 * |groups| || (idx == |ts| && idx + 1 == 2 * |groups|))
    {
      assert (idx + 1) % 2 == 0 <==> pending;
      if !pending {
        EmptyFront(ts[idx]);
      }
      current := current + ts[idx] + " ";
      if (idx + 1) % 2 == 0 || idx == |ts| - 1 {
        assert current == Joined(ts, 2 * |groups|);
        ExtendGroups(ts, groups, current);
        groups := groups + [current];
        current := "";
        pending := false;
      } else {
        pending := true;
      }
      idx := idx + 1;
    }
    AllGroups(ts, groups);
  }

  /** The closed paragraphs are the first pairs of sentences. */
  predicate GroupsSoFar(ts: seq<string>, groups: seq<string>) {
    forall j :: 0 <= j < |groups| ==> 2 * j < |ts| && groups[j] == Joined(ts, 2 * j)
  }

  lemma ExtendGroups(ts: seq<string>, groups: seq<string>, g: string)
    requires GroupsSoFar(ts, groups)
    requires 2 * |groups| < |ts| && g == Joined(ts, 2 * |groups|)
    ensures GroupsSoFar(ts, groups + [g])
  {
  }

  lemma AllGroups(ts: seq<string>, groups: seq<string>)
    requires |groups| == (|ts| + 1) / 2
    requires GroupsSoFar(ts, groups)
    ensures groups == RawPairs(ts)
  {
  }

  lemma EmptyFront(x: string)
    ensures "" + x == x
  {
  }

  // ---------------------------------------------------------------------------
  // The paragraphs shown
  // ---------------------------------------------------------------------------

  const LongParagraph := 300

  /** The paragraphs of the article page: the blank-line paragraphs; a single
      one over 300 characters regrouped by sentence pairs (the whole of it
      as one sentence when no sentence matches); and the full text when no
      paragraph is left. */
  method ArticleParagraphs(summary: string, content: Option<string>) returns (paras: seq<string>)
    ensures |paras| >= 1
    ensures var split := BlankLineParagraphs(FullText(summary, content));
      (|split| == 0 ==> paras == [FullText(summary, content)]) &&
      (|split| >= 2 || (|split| == 1 && |split[0]| <= LongParagraph) ==>
        paras == split && forall p :: p in paras ==> IsParagraph(p)) &&
      (|split| == 1 && |split[0]| > LongParagraph ==>
        var ss := Sentences(split[0]);
        paras == Pairs(if |ss| == 0 then [split[0]] else ss) &&
        |paras| == (if |ss| == 0 then 1 else (|ss| + 1) / 2))
  {
    var text := FullText(summary, content);
    paras := BlankLineParagraphs(text);
    if |paras| == 1 && |paras[0]| > LongParagraph {
      var ss := Sentences(paras[0]);
      if |ss| == 0 {
        ss := [paras[0]];
      }
      paras := GroupSentences(ss);
    }
    if |paras| == 0 {
      paras := [text];
    }
  }
}
