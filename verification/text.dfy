/**
 * The string and number primitives of JavaScript that the rest of the model
 * relies on: `trim`, `toLowerCase`, `includes`, truthiness of optional
 * strings, `parseInt` and the decimal rendering of numbers in template
 * literals.
 */
module Text {
  import opened Wrappers

  // ---------------------------------------------------------------------------
  // Whitespace and String.prototype.trim
  // ---------------------------------------------------------------------------

  /** The ECMAScript WhiteSpace and LineTerminator code points: what `trim`
      strips and what `parseInt` skips before the number. */
  predicate IsSpace(c: char) {
    || c == ' ' || c == '\t' || c == '\n' || c == '\r' || c == '\U{000B}' || c == '\U{000C}'
    || c == '\U{00A0}' || c == '\U{1680}' || ('\U{2000}' <= c <= '\U{200A}')
    || c == '\U{2028}' || c == '\U{2029}' || c == '\U{202F}' || c == '\U{205F}'
    || c == '\U{3000}' || c == '\U{FEFF}'
  }

  /** `trimStart`: drops the leading whitespace and nothing else. */
  function TrimStart(s: string): (r: string)
    ensures |r| <= |s| && r == s[|s| - |r|..]
    ensures |r| > 0 ==> !IsSpace(r[0])
    ensures forall i :: 0 <= i < |s| - |r| ==> IsSpace(s[i])
  {
    if |s| > 0 && IsSpace(s[0]) then TrimStart(s[1..]) else s
  }

  /** `trimEnd`: drops the trailing whitespace and nothing else. */
  function TrimEnd(s: string): (r: string)
    ensures |r| <= |s| && r == s[..|r|]
    ensures |r| > 0 ==> !IsSpace(r[|r| - 1])
    ensures forall i :: |r| <= i < |s| ==> IsSpace(s[i])
  {
    if |s| > 0 && IsSpace(s[|s| - 1]) then TrimEnd(s[..|s| - 1]) else s
  }

  /** Neither end of `s` is whitespace. */
  predicate IsTrimmed(s: string) {
    |s| == 0 || (!IsSpace(s[0]) && !IsSpace(s[|s| - 1]))
  }

  /** `String.prototype.trim`. */
  function Trim(s: string): (r: string)
    ensures |r| <= |s|
    ensures IsTrimmed(r)
    ensures IsTrimmed(s) ==> r == s
  {
    TrimEnd(TrimStart(s))
  }

  // ---------------------------------------------------------------------------
  // String.prototype.toLowerCase and String.prototype.includes
  // ---------------------------------------------------------------------------

  /** The code points that `toLowerCase` changes, within the scripts the
      model covers. */
  predicate HasLowerMapping(c: char) {
    || 'A' <= c <= 'Z' || c == '\U{0130}'
    || ('\U{00C0}' <= c <= '\U{00DE}' && c != '\U{00D7}')
    || c == '\U{011E}' || c == '\U{015E}' || c == '\U{212A}'
  }

  /** The lower-case mapping of one code point, as `toLowerCase` performs it
      outside any locale: ASCII, Latin-1, the Turkish capitals Ğ and Ş, the
      dotted capital İ (which becomes `i` followed by U+0307 COMBINING DOT
      ABOVE) and the Kelvin sign. Code points of other scripts map to
      themselves here. */
  function LowerChar(c: char): (r: string)
    ensures 1 <= |r| <= 2
    ensures 'A' <= c <= 'Z' ==> r == [(c as int + 32) as char] && 'a' <= r[0] <= 'z'
    ensures !HasLowerMapping(c) ==> r == [c]
    ensures HasLowerMapping(c) ==> r != [c]
    ensures forall i :: 0 <= i < |r| ==> !HasLowerMapping(r[i])
  {
    if 'A' <= c <= 'Z' then [(c as int + 32) as char]
    else if c == '\U{0130}' then "i\U{0307}"
    else if '\U{00C0}' <= c <= '\U{00DE}' && c != '\U{00D7}' then [(c as int + 32) as char]
    else if c == '\U{011E}' || c == '\U{015E}' then [(c as int + 1) as char]
    else if c == '\U{212A}' then "k"
    else [c]
  }

  /** `toLowerCase`. */
  function Lower(s: string): (r: string)
    ensures |s| <= |r| <= 2 * |s|
  {
    if |s| == 0 then "" else LowerChar(s[0]) + Lower(s[1..])
  }

  /** Lowering works code point by code point. */
  lemma {:induction false} LowerConcat(a: string, b: string)
    ensures Lower(a + b) == Lower(a) + Lower(b)
  {
    if |a| > 0 {
      assert (a + b)[0] == a[0] && (a + b)[1..] == a[1..] + b;
      LowerConcat(a[1..], b);
    } else {
      assert a + b == b;
    }
  }

  /** Text with nothing to lower is its own lower case. */
  lemma {:induction false} LowerKeeps(s: string)
    requires forall i :: 0 <= i < |s| ==> !HasLowerMapping(s[i])
    ensures Lower(s) == s
  {
    if |s| > 0 {
      LowerKeeps(s[1..]);
    }
  }

  /** `toLowerCase` is idempotent: lowered text has nothing left to lower. */
  lemma {:induction false} LowerIdempotent(s: string)
    ensures Lower(Lower(s)) == Lower(s)
  {
    if |s| > 0 {
      var c := LowerChar(s[0]);
      LowerKeeps(c);
      LowerIdempotent(s[1..]);
      LowerConcat(c, Lower(s[1..]));
    }
  }

  /** `t` occurs in `s` starting at index `i`. */
  predicate MatchesAt(s: string, t: string, i: nat) {
    i + |t| <= |s| && s[i..i + |t|] == t
  }

  /** `s.includes(t)`. */
  predicate Contains(s: string, t: string) {
    exists i: nat :: i <= |s| && MatchesAt(s, t, i)
  }

  // ---------------------------------------------------------------------------
  // Truthiness of optional strings: `x || fallback`
  // ---------------------------------------------------------------------------

  /** A JavaScript value that is a string or missing is truthy exactly when it
      is a non-empty string. */
  predicate Truthy(o: Option<string>) {
    o.Some? && o.value != ""
  }

  /** `a || b` for two optional strings. */
  function Either(a: Option<string>, b: Option<string>): (r: Option<string>)
    ensures Truthy(a) ==> r == a
    ensures !Truthy(a) ==> r == b
  {
    if Truthy(a) then a else b
  }

  /** `a || fallback` for an optional string and a literal fallback. */
  function Or(a: Option<string>, fallback: string): (r: string)
    ensures Truthy(a) ==> r == a.value
    ensures !Truthy(a) ==> r == fallback
  {
    if Truthy(a) then a.value else fallback
  }

  /** `list?.[0]` for a list of strings that may be absent or empty. */
  function First(xs: seq<string>): (r: Option<string>)
    ensures r.Some? <==> |xs| > 0
    ensures r.Some? ==> r.value == xs[0]
  {
    if |xs| > 0 then Some(xs[0]) else None
  }

  // ---------------------------------------------------------------------------
  // Numbers: decimal rendering and parseInt
  // ---------------------------------------------------------------------------

  predicate IsDigit(c: char) {
    '0' <= c <= '9'
  }

  predicate IsHexDigit(c: char) {
    IsDigit(c) || 'a' <= c <= 'f' || 'A' <= c <= 'F'
  }

  predicate IsRadixDigit(c: char, hex: bool) {
    if hex then IsHexDigit(c) else IsDigit(c)
  }

  predicate AllRadixDigits(s: string, hex: bool) {
    forall i :: 0 <= i < |s| ==> IsRadixDigit(s[i], hex)
  }

  function CharValue(c: char): (v: nat)
    requires IsHexDigit(c)
    ensures v < 16
    ensures IsDigit(c) ==> v < 10
  {
    if IsDigit(c) then c as int - '0' as int
    else if 'a' <= c <= 'f' then c as int - 'a' as int + 10
    else c as int - 'A' as int + 10
  }

  function Digit(d: nat): (c: char)
    requires d < 10
    ensures IsDigit(c) && CharValue(c) == d
  {
    ('0' as int + d) as char
  }

  /** The decimal digits of `n`, as a template literal renders a non-negative
      integer. */
  function NatToString(n: nat): (r: string)
    ensures |r| >= 1
    ensures AllRadixDigits(r, false)
  {
    if n < 10 then [Digit(n)] else NatToString(n / 10) + [Digit(n % 10)]
  }

  /** The value of a string of digits in base 10 or 16. */
  function RadixValue(s: string, hex: bool): nat
    requires AllRadixDigits(s, hex)
  {
    if |s| == 0 then 0
    else RadixValue(s[..|s| - 1], hex) * (if hex then 16 else 10) + CharValue(s[|s| - 1])
  }

  lemma {:induction false} DecimalRoundTrip(n: nat)
    ensures RadixValue(NatToString(n), false) == n
  {
    if n >= 10 {
      var s := NatToString(n);
      assert s[..|s| - 1] == NatToString(n / 10);
      DecimalRoundTrip(n / 10);
    }
  }

  /** The length of the longest prefix of `s` made of digits of the radix. */
  function DigitRun(s: string, hex: bool): (n: nat)
    ensures n <= |s|
    ensures AllRadixDigits(s[..n], hex)
    ensures n < |s| ==> !IsRadixDigit(s[n], hex)
  {
    if |s| > 0 && IsRadixDigit(s[0], hex) then 1 + DigitRun(s[1..], hex) else 0
  }

  /** A JavaScript number as the model needs it: an integer or NaN.
      Floating-point precision is not modelled. */
  datatype JsNum = Num(n: int) | NaN

  /** The digits after the sign: a `0x`/`0X` prefix selects base 16, and the
      longest run of digits that follows is the value; no digits give None. */
  function ParseUnsigned(u: string): (r: Option<nat>)
  {
    var hex := |u| >= 2 && u[0] == '0' && (u[1] == 'x' || u[1] == 'X');
    var body := if hex then u[2..] else u;
    var n := DigitRun(body, hex);
    if n == 0 then None else Some(RadixValue(body[..n], hex))
  }

  /** The sign and digits of `parseInt`, once leading whitespace is gone. */
  function ParseSigned(t: string): (r: JsNum)
  {
    var negative := |t| > 0 && t[0] == '-';
    var u := if |t| > 0 && (t[0] == '-' || t[0] == '+') then t[1..] else t;
    match ParseUnsigned(u)
    case None => NaN
    case Some(v) => Num(if negative then -(v as int) else v)
  }

  /** `parseInt(s)` with no radix argument: leading whitespace is skipped, an
      optional sign is read, then the digits as `ParseUnsigned` reads them;
      no digits give NaN. */
  function ParseInt(s: string): (r: JsNum)
    ensures var t := TrimStart(s);
      |t| == 0 || (!IsDigit(t[0]) && t[0] != '-' && t[0] != '+') ==> r == NaN
  {
    ParseSigned(TrimStart(s))
  }

  /** How a template literal renders a number: `NaN`, or the decimal digits
      with a leading `-` for negatives. */
  function NumToString(x: JsNum): (r: string)
    ensures |r| >= 1
    ensures forall i :: 1 <= i < |r| ==> r[i] != '-'
  {
    match x
    case NaN => "NaN"
    case Num(n) => if n < 0 then "-" + NatToString(-n) else NatToString(n)
  }

  lemma DigitRunOfDigits(s: string)
    requires AllRadixDigits(s, false)
    ensures DigitRun(s, false) == |s|
  {
    if |s| > 0 {
      DigitRunOfDigits(s[1..]);
    }
  }

  lemma ParseUnsignedDecimal(d: string)
    requires |d| >= 1 && AllRadixDigits(d, false)
    ensures ParseUnsigned(d) == Some(RadixValue(d, false))
  {
    assert !(|d| >= 2 && d[0] == '0' && (d[1] == 'x' || d[1] == 'X'));
    DigitRunOfDigits(d);
    assert d[..|d|] == d;
  }

  lemma TrimStartKeeps(s: string)
    requires |s| > 0 && !IsSpace(s[0])
    ensures TrimStart(s) == s
  {
  }

  lemma ParseSignedMinus(t: string, v: nat)
    requires |t| > 0 && t[0] == '-' && ParseUnsigned(t[1..]) == Some(v)
    ensures ParseSigned(t) == Num(-(v as int))
  {
  }

  lemma ParseNegative(d: string)
    requires |d| >= 1 && AllRadixDigits(d, false)
    ensures ParseInt("-" + d) == Num(-(RadixValue(d, false) as int))
  {
    var v := RadixValue(d, false);
    ParseUnsignedDecimal(d);
    assert ParseUnsigned(d) == Some(v);
    ParseMinus(d, v);
  }

  lemma ParseMinus(d: string, v: nat)
    requires ParseUnsigned(d) == Some(v)
    ensures ParseInt("-" + d) == Num(-(v as int))
  {
    var s := "-" + d;
    assert s[0] == '-' && !IsSpace(s[0]);
    ParseUntrimmed(s);
    assert s[1..] == d;
    ParseSignedMinus(s, v);
  }

  lemma ParseUntrimmed(s: string)
    requires |s| > 0 && !IsSpace(s[0])
    ensures ParseInt(s) == ParseSigned(s)
  {
    TrimStartKeeps(s);
  }

  lemma ParseNonNegative(d: string)
    requires |d| >= 1 && AllRadixDigits(d, false)
    ensures ParseInt(d) == Num(RadixValue(d, false))
  {
    assert IsDigit(d[0]);
    assert !IsSpace(d[0]) && d[0] != '-' && d[0] != '+';
    assert TrimStart(d) == d;
    ParseUnsignedDecimal(d);
    assert ParseSigned(d) == Num(RadixValue(d, false));
  }

  lemma {:induction false} DigitRunStops(d: string, rest: string)
    requires AllRadixDigits(d, false)
    requires |rest| == 0 || !IsDigit(rest[0])
    ensures DigitRun(d + rest, false) == |d|
    decreases |d|
  {
    var s := d + rest;
    if |d| > 0 {
      assert s[0] == d[0] && IsRadixDigit(d[0], false);
      assert s[1..] == d[1..] + rest;
      assert AllRadixDigits(d[1..], false) by {
        forall i | 0 <= i < |d| - 1
          ensures IsRadixDigit(d[1..][i], false)
        {
          assert d[1..][i] == d[i + 1];
        }
      }
      DigitRunStops(d[1..], rest);
      assert DigitRun(s, false) == 1 + DigitRun(s[1..], false);
    } else {
      assert s == rest;
      assert |s| == 0 || !IsRadixDigit(s[0], false);
    }
  }

  lemma ParseSignedPlain(t: string, v: nat)
    requires |t| > 0 && t[0] != '-' && t[0] != '+' && ParseUnsigned(t) == Some(v)
    ensures ParseSigned(t) == Num(v)
  {
  }

  lemma NoHexPrefix(d: string, rest: string)
    requires |d| >= 1 && AllRadixDigits(d, false)
    requires |rest| == 0 || (!IsDigit(rest[0]) && rest[0] != 'x' && rest[0] != 'X')
    ensures var s := d + rest; !(|s| >= 2 && s[0] == '0' && (s[1] == 'x' || s[1] == 'X'))
  {
    var s := d + rest;
    if |s| >= 2 {
      if |d| >= 2 {
        assert s[1] == d[1] && IsRadixDigit(d[1], false);
      } else {
        assert s[1] == rest[0];
      }
    }
  }

  lemma ParseUnsignedDigitsThenText(d: string, rest: string)
    requires |d| >= 1 && AllRadixDigits(d, false)
    requires |rest| == 0 || (!IsDigit(rest[0]) && rest[0] != 'x' && rest[0] != 'X')
    ensures ParseUnsigned(d + rest) == Some(RadixValue(d, false))
  {
    var s := d + rest;
    NoHexPrefix(d, rest);
    DigitRunStops(d, rest);
    assert s[..|d|] == d;
  }

  /** `parseInt` reads the leading digits and ignores whatever follows a
      non-digit (one that cannot turn a leading 0 into a hex prefix). */
  lemma ParseDigitsThenText(d: string, rest: string)
    requires |d| >= 1 && AllRadixDigits(d, false)
    requires |rest| == 0 || (!IsDigit(rest[0]) && rest[0] != 'x' && rest[0] != 'X')
    ensures ParseInt(d + rest) == Num(RadixValue(d, false))
  {
    var s := d + rest;
    assert s[0] == d[0] && IsRadixDigit(d[0], false);
    TrimStartKeeps(s);
    ParseUnsignedDigitsThenText(d, rest);
    ParseSignedPlain(s, RadixValue(d, false));
  }

  lemma ParseNaN()
    ensures ParseInt("NaN") == NaN
  {
    assert !IsSpace('N');
    assert TrimStart("NaN") == "NaN";
    assert DigitRun("NaN", false) == 0;
    assert ParseUnsigned("NaN") == None;
  }

  /** Rendering a number and parsing it back gives the same number: the
      rendering is injective. */
  lemma ParseNumToString(x: JsNum)
    ensures ParseInt(NumToString(x)) == x
  {
    match x
    case NaN =>
      assert NumToString(x) == "NaN";
      ParseNaN();
    case Num(n) =>
      if n < 0 {
        assert NumToString(x) == "-" + NatToString(-n);
        ParseRenderedNegative(n);
      } else {
        assert NumToString(x) == NatToString(n);
        ParseRenderedNonNegative(n);
      }
  }

  lemma ParseRenderedNegative(n: int)
    requires n < 0
    ensures ParseInt("-" + NatToString(-n)) == Num(n)
  {
    DecimalRoundTrip(-n);
    ParseNegative(NatToString(-n));
  }

  lemma ParseRenderedNonNegative(n: nat)
    ensures ParseInt(NatToString(n)) == Num(n)
  {
    DecimalRoundTrip(n);
    ParseNonNegative(NatToString(n));
  }

  lemma NumToStringInjective(x: JsNum, y: JsNum)
    requires NumToString(x) == NumToString(y)
    ensures x == y
  {
    ParseNumToString(x);
    ParseNumToString(y);
  }

  // ---------------------------------------------------------------------------
  // Splitting at a hyphen
  // ---------------------------------------------------------------------------

  predicate NoHyphen(s: string) {
    forall i :: 0 <= i < |s| ==> s[i] != '-'
  }

  /** The index of the first hyphen, or the length when there is none. */
  function FirstHyphen(s: string): (k: nat)
    ensures k <= |s|
  {
    if |s| == 0 || s[0] == '-' then 0 else 1 + FirstHyphen(s[1..])
  }

  lemma {:induction false} FirstHyphenAfter(a: string, b: string)
    requires NoHyphen(a)
    ensures FirstHyphen(a + "-" + b) == |a|
  {
    if |a| > 0 {
      assert (a + "-" + b)[1..] == a[1..] + "-" + b;
      FirstHyphenAfter(a[1..], b);
    }
  }

  /** Splitting at the first hyphen recovers both halves. */
  lemma SplitAtHyphen(a: string, b: string, c: string, d: string)
    requires NoHyphen(a) && NoHyphen(c)
    requires a + "-" + b == c + "-" + d
    ensures a == c && b == d
  {
    var s := a + "-" + b;
    FirstHyphenAfter(a, b);
    FirstHyphenAfter(c, d);
    assert a == s[..|a|];
    assert c == s[..|c|];
    assert b == s[|a| + 1..];
    assert d == s[|c| + 1..];
  }

  /** The same split for two halves that may each begin with a minus sign,
      as rendered numbers can. */
  lemma SplitAfterSign(a: string, b: string, c: string, d: string)
    requires |a| >= 1 && |c| >= 1
    requires forall i :: 1 <= i < |a| ==> a[i] != '-'
    requires forall i :: 1 <= i < |c| ==> c[i] != '-'
    requires a + "-" + b == c + "-" + d
    ensures a == c && b == d
  {
    var s := a + "-" + b;
    assert s[0] == a[0] && s[0] == c[0];
    if a[0] == '-' {
      assert s[1..] == a[1..] + "-" + b;
      assert s[1..] == c[1..] + "-" + d;
      SplitAtHyphen(a[1..], b, c[1..], d);
      assert a == [a[0]] + a[1..] && c == [c[0]] + c[1..];
    } else {
      SplitAtHyphen(a, b, c, d);
    }
  }

  /** `Math.min(x, bound)`: NaN stays NaN. */
  function MinNum(x: JsNum, bound: int): (r: JsNum)
    ensures x.NaN? <==> r.NaN?
    ensures r.Num? ==> r.n <= bound && (r.n == x.n || r.n == bound)
    ensures x.Num? && x.n <= bound ==> r == x
  {
    match x
    case NaN => NaN
    case Num(n) => Num(if n < bound then n else bound)
  }
}
