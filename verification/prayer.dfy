/**
 * `getNextPrayer`: the next of the six daily prayer times after the current
 * minute of the day, with the time remaining until it. The current hour and
 * minute are inputs.
 */
module Prayer {
  import opened Wrappers
  import opened Text

  /** The six times as the prayer-times service supplies them, `"HH:MM"`. */
  datatype PrayerTimes = PrayerTimes(fajr: string, sunrise: string, dhuhr: string, asr: string, maghrib: string, isha: string)

  const Names: seq<string> := ["İmsak", "Güneş", "Öğle", "İkindi", "Akşam", "Yatsı"]

  /** The times in the fixed order İmsak, Güneş, Öğle, İkindi, Akşam, Yatsı. */
  function Times(p: PrayerTimes): (r: seq<string>)
    ensures |r| == 6 && r[0] == p.fajr
  {
    [p.fajr, p.sunrise, p.dhuhr, p.asr, p.maghrib, p.isha]
  }

  /** The index of the first `:`, or the length when there is none. */
  function ColonAt(s: string): (k: nat)
    ensures k <= |s|
    ensures k < |s| ==> s[k] == ':'
    ensures forall i :: 0 <= i < k ==> s[i] != ':'
  {
    if |s| == 0 || s[0] == ':' then 0 else 1 + ColonAt(s[1..])
  }

  /** `time.split(':')[0]`: the text before the first `:`. */
  function HourPart(time: string): string {
    time[..ColonAt(time)]
  }

  /** `time.split(':')[1]`: the text between the first and second `:`, or
      undefined when there is no `:`. */
  function MinutePart(time: string): Option<string> {
    var k := ColonAt(time);
    if k == |time| then None
    else
      var rest := time[k + 1..];
      Some(rest[..ColonAt(rest)])
  }

  /** The hour part is the text up to the first colon; the minute part is
      missing exactly when there is no colon, and is otherwise the text after
      the first colon up to the next colon or the end. */
  lemma SplitAtColon(time: string)
    ensures var h := HourPart(time);
      && |h| <= |time| && time[..|h|] == h && ':' !in h
      && (|h| < |time| ==> time[|h|] == ':')
    ensures MinutePart(time).None? <==> ':' !in time
    ensures MinutePart(time).Some? ==>
      var h, m := HourPart(time), MinutePart(time).value;
      var n := |h| + 1 + |m|;
      && ':' !in m && n <= |time| && time[..n] == h + ":" + m
      && (n < |time| ==> time[n] == ':')
  {
  }

  /** `h * 60 + m` on JavaScript numbers: NaN in, NaN out. */
  function Combine(h: JsNum, m: JsNum): (r: JsNum)
    ensures r.Num? <==> h.Num? && m.Num?
    ensures r.Num? ==> r.n == h.n * 60 + m.n
  {
    if h.Num? && m.Num? then Num(h.n * 60 + m.n) else NaN
  }

  /** `const [hours, minutes] = time.split(':')` followed by
      `parseInt(hours) * 60 + parseInt(minutes)`. Without a `:` the minutes
      are undefined and the result is NaN, as is any NaN operand. */
  function MinuteOfDay(time: string): (r: JsNum)
    ensures MinutePart(time).None? ==> r == NaN
  {
    match MinutePart(time)
    case None => NaN
    case Some(m) => Combine(ParseInt(HourPart(time)), ParseInt(m))
  }

  lemma {:induction false} ColonAfterDigits(d: string, rest: string)
    requires AllRadixDigits(d, false)
    ensures ColonAt(d + ":" + rest) == |d|
    decreases |d|
  {
    var s := d + ":" + rest;
    if |d| > 0 {
      assert s[0] == d[0] && IsRadixDigit(d[0], false);
      assert s[1..] == d[1..] + ":" + rest;
      assert AllRadixDigits(d[1..], false) by {
        forall i | 0 <= i < |d| - 1
          ensures IsRadixDigit(d[1..][i], false)
        {
          assert d[1..][i] == d[i + 1];
        }
      }
      ColonAfterDigits(d[1..], rest);
    }
  }

  lemma ColonAtDigits(d: string)
    requires AllRadixDigits(d, false)
    ensures ColonAt(d) == |d|
  {
  }

  lemma SplitClock(a: string, b: string)
    requires AllRadixDigits(a, false) && AllRadixDigits(b, false)
    ensures HourPart(a + ":" + b) == a
    ensures MinutePart(a + ":" + b) == Some(b)
  {
    var s := a + ":" + b;
    ColonAfterDigits(a, b);
    assert s[..|a|] == a;
    assert s[|a| + 1..] == b;
    ColonAtDigits(b);
    assert b[..|b|] == b;
  }

  /** A time written `H:M` with non-empty runs of decimal digits, leading
      zeros included (`"05:30"`), is read as minute `H*60 + M`. */
  lemma {:induction false} MinuteOfDayReadsClock(a: string, b: string)
    requires |a| >= 1 && AllRadixDigits(a, false)
    requires |b| >= 1 && AllRadixDigits(b, false)
    ensures MinuteOfDay(a + ":" + b) == Num(RadixValue(a, false) * 60 + RadixValue(b, false))
  {
    ClockCombines(a, b);
    ClockValue(a, b);
  }

  /** The two digit parts, read separately and combined. */
  lemma {:induction false} ClockValue(a: string, b: string)
    requires |a| >= 1 && AllRadixDigits(a, false)
    requires |b| >= 1 && AllRadixDigits(b, false)
    ensures Combine(ParseInt(a), ParseInt(b)) == Num(RadixValue(a, false) * 60 + RadixValue(b, false))
  {
    ParseNonNegative(a);
    ParseNonNegative(b);
    CombineOf(ParseInt(a), ParseInt(b), RadixValue(a, false), RadixValue(b, false));
  }

  lemma CombineOf(pa: JsNum, pb: JsNum, h: int, m: int)
    requires pa == Num(h) && pb == Num(m)
    ensures Combine(pa, pb) == Num(h * 60 + m)
  {
  }

  /** A digit time is the combination of its two parts, read separately. */
  lemma {:induction false} ClockCombines(a: string, b: string)
    requires AllRadixDigits(a, false) && AllRadixDigits(b, false)
    ensures MinuteOfDay(a + ":" + b) == Combine(ParseInt(a), ParseInt(b))
  {
    SplitClock(a, b);
  }

  /** The zero-padded fallback time for İmsak is minute 330 of the day. */
  lemma PaddedTimeReads()
    ensures MinuteOfDay("05:30") == Num(330)
  {
    assert "05:30" == "05" + ":" + "30";
    assert AllRadixDigits("05", false) && AllRadixDigits("30", false);
    assert RadixValue("05", false) == 5 by {
      assert "05"[..1] == "0";
      assert "0"[..0] == "";
    }
    assert RadixValue("30", false) == 30 by {
      assert "30"[..1] == "3";
      assert "3"[..0] == "";
    }
    MinuteOfDayReadsClock("05", "30");
  }

  /** The prayer lies strictly after the current minute; NaN never does. */
  predicate Later(t: JsNum, current: int) {
    t.Num? && t.n > current
  }

  /** `hours > 0 ? `${hours} saat ${mins} dk` : `${mins} dk``. */
  function RemainingText(hours: nat, minutes: nat): (r: string)
    ensures |r| > 3 && r[|r| - 3..] == " dk"
  {
    if hours > 0 then NatToString(hours) + " saat " + NatToString(minutes) + " dk"
    else NatToString(minutes) + " dk"
  }

  /** The text leads with the hours when there are any, else with the
      minutes, as `parseInt` reads it back. */
  lemma RemainingTextReadsBack(hours: nat, minutes: nat)
    ensures ParseInt(RemainingText(hours, minutes)) == Num(if hours > 0 then hours else minutes)
  {
    if hours > 0 {
      DecimalRoundTrip(hours);
      var rest := " saat " + NatToString(minutes) + " dk";
      assert RemainingText(hours, minutes) == NatToString(hours) + rest;
      ParseDigitsThenText(NatToString(hours), rest);
    } else {
      DecimalRoundTrip(minutes);
      ParseDigitsThenText(NatToString(minutes), " dk");
    }
  }

  datatype NextPrayer = NextPrayer(name: string, time: string, hours: nat, minutes: nat, text: string)

  /** The answer when nothing is left today: tomorrow's İmsak. */
  function Tomorrow(p: PrayerTimes): (r: NextPrayer)
    ensures r.name == Names[0] && r.time == Times(p)[0]
    ensures r.hours == 0 && r.minutes == 0 && r.text == "Yarın"
  {
    NextPrayer("İmsak", p.fajr, 0, 0, "Yarın")
  }

  /** The minute of the day of each prayer, in order. */
  function Minutes(p: PrayerTimes): (r: seq<JsNum>)
    ensures |r| == 6
    ensures forall k :: 0 <= k < 6 ==> r[k] == MinuteOfDay(Times(p)[k])
  {
    seq(6, k requires 0 <= k < 6 => MinuteOfDay(Times(p)[k]))
  }

  /** Prayer `k` is the first of the day later than `current`. */
  predicate IsNext(ms: seq<JsNum>, current: int, k: nat) {
    && k < |ms| && Later(ms[k], current)
    && forall j :: 0 <= j < k ==> !Later(ms[j], current)
  }

  /** The `for (const prayer of prayers)` loop: the index of the first
      prayer later than `current`, if there is one. */
  method FindNext(ms: seq<JsNum>, current: int) returns (r: Option<nat>)
    ensures r.Some? ==> IsNext(ms, current, r.value)
    ensures r.None? ==> forall j :: 0 <= j < |ms| ==> !Later(ms[j], current)
  {
    var k := 0;
    while k < |ms|
      invariant 0 <= k <= |ms|
      invariant forall j :: 0 <= j < k ==> !Later(ms[j], current)
    {
      if Later(ms[k], current) {
        return Some(k);
      }
      k := k + 1;
    }
    return None;
  }

  lemma IsNextUnique(ms: seq<JsNum>, current: int, k: nat, k2: nat)
    requires IsNext(ms, current, k) && IsNext(ms, current, k2)
    ensures k == k2
  {
  }

  /** `now.getHours() * 60 + now.getMinutes()`. */
  function CurrentMinute(hour: nat, minute: nat): int {
    hour * 60 + minute
  }

  /** `r` names prayer `k` and the time left until it: whole hours and
      minutes below 60 adding up to the positive gap, and their text. */
  predicate Describes(r: NextPrayer, p: PrayerTimes, current: int, k: nat)
    requires k < 6
  {
    && r.name == Names[k] && r.time == Times(p)[k]
    && Minutes(p)[k].Num?
    && r.hours * 60 + r.minutes == Minutes(p)[k].n - current
    && r.minutes < 60 && r.hours * 60 + r.minutes > 0
    && r.text == RemainingText(r.hours, r.minutes)
  }

  /** `getNextPrayer(prayerTimes)` at `hour:minute`: the first prayer later
      than the current minute, with the remaining time split into whole
      hours and minutes; with none left, tomorrow's İmsak. */
  method GetNextPrayer(p: PrayerTimes, hour: nat, minute: nat) returns (r: NextPrayer)
    ensures forall k :: 0 <= k < 6 && IsNext(Minutes(p), CurrentMinute(hour, minute), k) ==>
      Describes(r, p, CurrentMinute(hour, minute), k)
    ensures (forall k :: 0 <= k < 6 ==> !Later(Minutes(p)[k], CurrentMinute(hour, minute))) ==>
      r == Tomorrow(p)
  {
    var ms := Minutes(p);
    var current := CurrentMinute(hour, minute);
    var next := FindNext(ms, current);
    match next
    case None =>
      r := Tomorrow(p);
    case Some(k) =>
      var remaining := ms[k].n - current;
      var h := remaining / 60;
      var m := remaining % 60;
      r := NextPrayer(Names[k], Times(p)[k], h, m, RemainingText(h, m));
      assert Describes(r, p, current, k);
      forall k2 | 0 <= k2 < 6 && IsNext(ms, current, k2)
        ensures Describes(r, p, current, k2)
      {
        IsNextUnique(ms, current, k, k2);
      }
  }
}
