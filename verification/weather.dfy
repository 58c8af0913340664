/**
 * The pure helpers of the weather service: the condition-code
 * classification behind `getWeatherEmoji`, the icon URL and the time-zone
 * offset in seconds.
 */
module Weather {
  import opened Text

  /** The weather classes `getWeatherEmoji` distinguishes. Drizzle (3xx) and
      rain (5xx) return the same glyph, so they are one class here. */
  datatype Sky = Thunderstorm | Rain | Snow | Mist | Clear | Clouds | Fair

  /** `getWeatherEmoji(code)`: the first range test that holds decides; a
      NaN code fails every test and gets the default. */
  function Classify(code: JsNum): (s: Sky)
    ensures code.NaN? ==> s == Fair
    ensures code.Num? ==> (s == Thunderstorm <==> 200 <= code.n < 300)
    ensures code.Num? ==> (s == Rain <==> 300 <= code.n < 400 || 500 <= code.n < 600)
    ensures code.Num? ==> (s == Snow <==> 600 <= code.n < 700)
    ensures code.Num? ==> (s == Mist <==> 700 <= code.n < 800)
    ensures code.Num? ==> (s == Clear <==> code.n == 800)
    ensures code.Num? ==> (s == Clouds <==> code.n > 800)
    ensures code.Num? ==> (s == Fair <==> code.n < 200 || 400 <= code.n < 500)
  {
    match code
    case NaN => Fair
    case Num(c) =>
      if 200 <= c < 300 then Thunderstorm
      else if 300 <= c < 400 then Rain
      else if 500 <= c < 600 then Rain
      else if 600 <= c < 700 then Snow
      else if 700 <= c < 800 then Mist
      else if c == 800 then Clear
      else if c > 800 then Clouds
      else Fair
  }

  const IconBase := "https://openweathermap.org/img/wn/"
  const IconSuffix := "@2x.png"

  /** `getWeatherIconUrl(icon)`. */
  function IconUrl(icon: string): (u: string)
    ensures |u| == |IconBase| + |icon| + |IconSuffix|
    ensures u[..|IconBase|] == IconBase
    ensures u[|IconBase|..|IconBase| + |icon|] == icon
    ensures u[|IconBase| + |icon|..] == IconSuffix
  {
    IconBase + icon + IconSuffix
  }

  /** The icon code is recoverable from the URL, so distinct icons give
      distinct URLs. */
  lemma IconUrlInjective(a: string, b: string)
    requires IconUrl(a) == IconUrl(b)
    ensures a == b
  {
    assert |a| == |b|;
  }

  /** `-new Date().getTimezoneOffset() * 60`: the browser reports minutes
      behind UTC, the service wants seconds ahead of it. */
  function TimezoneOffsetSeconds(minutesBehindUtc: int): (s: int)
    ensures s % 60 == 0
    ensures s / 60 == -minutesBehindUtc
    ensures minutesBehindUtc < 0 <==> s > 0
  {
    -minutesBehindUtc * 60
  }
}
