/**
 * The shared formatting helpers of the web clients: the unit choice of
 * `formatBitrate`, `formatResolution`, `formatDuration`, `getQualityColor`
 * and `getBrowser` (with the user-agent string as a parameter instead of
 * `navigator.userAgent`). All are pure.
 *
 * Numbers that JavaScript keeps as doubles are `real`s here; the
 * `toFixed` rendering of `formatBitrate` is not modelled, only the value and
 * unit it renders.
 */
module Utils {
  import opened Assoc
  import opened Text

  // ---------------------------------------------------------------- bitrate

  /** The number `formatBitrate` renders and the unit after it. */
  datatype BitrateText = BitrateText(value: real, unit: string)

  /** `formatBitrate(kbps)`: kbps below 1000, otherwise Mbps. */
  function FormatBitrate(kbps: real): BitrateText {
    if kbps < 1000.0 then BitrateText(kbps, "kbps") else BitrateText(kbps / 1000.0, "Mbps")
  }

  /** How many kbps one unit stands for. */
  function UnitScale(unit: string): real {
    if unit == "Mbps" then 1000.0 else 1.0
  }

  /**
   * The rendered figure, read in its unit, is the input rate; the larger
   * unit is chosen exactly from 1000 kbps on, and then shows at least 1.
   */
  lemma FormatBitratePreservesRate(kbps: real)
    ensures FormatBitrate(kbps).value * UnitScale(FormatBitrate(kbps).unit) == kbps
    ensures FormatBitrate(kbps).unit == "Mbps" <==> kbps >= 1000.0
    ensures FormatBitrate(kbps).unit == "kbps" <==> kbps < 1000.0
    ensures FormatBitrate(kbps).unit == "Mbps" ==> FormatBitrate(kbps).value >= 1.0
  {
  }

  // ------------------------------------------------------------- resolution

  /** `\`${width}x${height}\``. */
  function SizeKey(width: int, height: int): string {
    IntToString(width) + "x" + IntToString(height)
  }

  /** The lookup table of `formatResolution`, keyed by its `WxH` strings. */
  const ResolutionLabels: map<string, string> := map[
    "3840x2160" := "4K",
    "2560x1440" := "1440p",
    "1920x1080" := "1080p",
    "1280x720" := "720p",
    "854x480" := "480p",
    "640x360" := "360p"]

  /** `formatResolution(width, height)`; 0 stands for a missing dimension. */
  function FormatResolution(width: int, height: int): string {
    if width == 0 || height == 0 then "Unknown"
    else
      var key := SizeKey(width, height);
      if key in ResolutionLabels then ResolutionLabels[key] else key
  }

  /** The same table keyed by the numbers themselves. */
  const KnownSizes: map<(int, int), string> := map[
    (3840, 2160) := "4K",
    (2560, 1440) := "1440p",
    (1920, 1080) := "1080p",
    (1280, 720) := "720p",
    (854, 480) := "480p",
    (640, 360) := "360p"]

  /** Different sizes give different keys: the `x` separates the two numbers unambiguously. */
  lemma SizeKeyInjective(w1: int, h1: int, w2: int, h2: int)
    requires SizeKey(w1, h1) == SizeKey(w2, h2)
    ensures w1 == w2 && h1 == h2
  {
    var a, b := IntToString(w1), IntToString(w2);
    var k := SizeKey(w1, h1);
    IntToStringHasNoX(w1);
    IntToStringHasNoX(w2);
    assert k[|a|] == 'x';
    assert SizeKey(w2, h2)[|b|] == 'x';
    assert |a| == |b|;
    assert a == k[..|a|] == b;
    IntToStringInjective(w1, w2);
    assert IntToString(h1) == k[|a| + 1..] == IntToString(h2);
    IntToStringInjective(h1, h2);
  }

  /** The decimal text of a number from 100 to 9999, digit by digit. */
  lemma DigitsOf(n: nat, d3: nat, d2: nat, d1: nat, d0: nat)
    requires d3 < 10 && d2 < 10 && d1 < 10 && d0 < 10 && 100 <= n
    requires n == d3 * 1000 + d2 * 100 + d1 * 10 + d0
    ensures NatToString(n) == (if d3 == 0 then [] else [DigitChar(d3)]) + [DigitChar(d2), DigitChar(d1), DigitChar(d0)]
  {
    var n1 := d3 * 100 + d2 * 10 + d1;
    var n2 := d3 * 10 + d2;
    assert n / 10 == n1 && n % 10 == d0;
    assert n1 / 10 == n2 && n1 % 10 == d1;
    assert NatToString(n) == NatToString(n1) + [DigitChar(d0)];
    assert NatToString(n1) == NatToString(n2) + [DigitChar(d1)];
    if d3 == 0 {
      assert NatToString(n2) == [DigitChar(d2)];
    } else {
      assert n2 / 10 == d3 && n2 % 10 == d2;
      assert NatToString(n2) == NatToString(d3) + [DigitChar(d2)];
    }
  }

  // The text of each listed size's key, one size at a time.

  lemma KeyText3840x2160()
    ensures SizeKey(3840, 2160) == "3840x2160"
  {
    DigitsOf(3840, 3, 8, 4, 0);
    DigitsOf(2160, 2, 1, 6, 0);
    assert DigitChar(0) == '0' && DigitChar(1) == '1' && DigitChar(2) == '2' && DigitChar(3) == '3' && DigitChar(4) == '4' && DigitChar(6) == '6' && DigitChar(8) == '8';
  }

  lemma KeyText2560x1440()
    ensures SizeKey(2560, 1440) == "2560x1440"
  {
    DigitsOf(2560, 2, 5, 6, 0);
    DigitsOf(1440, 1, 4, 4, 0);
    assert DigitChar(0) == '0' && DigitChar(1) == '1' && DigitChar(2) == '2' && DigitChar(4) == '4' && DigitChar(5) == '5' && DigitChar(6) == '6';
  }

  lemma KeyText1920x1080()
    ensures SizeKey(1920, 1080) == "1920x1080"
  {
    DigitsOf(1920, 1, 9, 2, 0);
    DigitsOf(1080, 1, 0, 8, 0);
    assert DigitChar(0) == '0' && DigitChar(1) == '1' && DigitChar(2) == '2' && DigitChar(8) == '8' && DigitChar(9) == '9';
  }

  lemma KeyText1280x720()
    ensures SizeKey(1280, 720) == "1280x720"
  {
    DigitsOf(1280, 1, 2, 8, 0);
    DigitsOf(720, 0, 7, 2, 0);
    assert DigitChar(0) == '0' && DigitChar(1) == '1' && DigitChar(2) == '2' && DigitChar(7) == '7' && DigitChar(8) == '8';
  }

  lemma KeyText854x480()
    ensures SizeKey(854, 480) == "854x480"
  {
    DigitsOf(854, 0, 8, 5, 4);
    DigitsOf(480, 0, 4, 8, 0);
    assert DigitChar(0) == '0' && DigitChar(4) == '4' && DigitChar(5) == '5' && DigitChar(8) == '8';
  }

  lemma KeyText640x360()
    ensures SizeKey(640, 360) == "640x360"
  {
    DigitsOf(640, 0, 6, 4, 0);
    DigitsOf(360, 0, 3, 6, 0);
    assert DigitChar(0) == '0' && DigitChar(3) == '3' && DigitChar(4) == '4' && DigitChar(6) == '6';
  }

  /** The string table and the size table give every listed size the same label. */
  lemma TablesAgree()
    ensures ResolutionLabels["3840x2160"] == KnownSizes[(3840, 2160)] == "4K"
    ensures ResolutionLabels["2560x1440"] == KnownSizes[(2560, 1440)] == "1440p"
    ensures ResolutionLabels["1920x1080"] == KnownSizes[(1920, 1080)] == "1080p"
    ensures ResolutionLabels["1280x720"] == KnownSizes[(1280, 720)] == "720p"
    ensures ResolutionLabels["854x480"] == KnownSizes[(854, 480)] == "480p"
    ensures ResolutionLabels["640x360"] == KnownSizes[(640, 360)] == "360p"
    ensures forall key :: key in ResolutionLabels ==>
      key == "3840x2160" || key == "2560x1440" || key == "1920x1080" || key == "1280x720" || key == "854x480" || key == "640x360"
  {
  }

  /** Each listed size's key is in the string table, with the same label. */
  lemma ResolutionLabelKey(width: int, height: int)
    requires (width, height) in KnownSizes
    ensures SizeKey(width, height) in ResolutionLabels
    ensures ResolutionLabels[SizeKey(width, height)] == KnownSizes[(width, height)]
  {
    TablesAgree();
    if width == 3840 && height == 2160 {
      KeyText3840x2160();
    } else if width == 2560 && height == 1440 {
      KeyText2560x1440();
    } else if width == 1920 && height == 1080 {
      KeyText1920x1080();
    } else if width == 1280 && height == 720 {
      KeyText1280x720();
    } else if width == 854 && height == 480 {
      KeyText854x480();
    } else {
      assert width == 640 && height == 360;
      KeyText640x360();
    }
  }

  /** Only the listed sizes have a key in the string table. */
  lemma LabelledKeyIsListed(width: int, height: int)
    ensures SizeKey(width, height) in ResolutionLabels ==> (width, height) in KnownSizes
  {
    TablesAgree();
    var key := SizeKey(width, height);
    if key == "3840x2160" {
      KeyText3840x2160();
      SizeKeyInjective(width, height, 3840, 2160);
    } else if key == "2560x1440" {
      KeyText2560x1440();
      SizeKeyInjective(width, height, 2560, 1440);
    } else if key == "1920x1080" {
      KeyText1920x1080();
      SizeKeyInjective(width, height, 1920, 1080);
    } else if key == "1280x720" {
      KeyText1280x720();
      SizeKeyInjective(width, height, 1280, 720);
    } else if key == "854x480" {
      KeyText854x480();
      SizeKeyInjective(width, height, 854, 480);
    } else if key == "640x360" {
      KeyText640x360();
      SizeKeyInjective(width, height, 640, 360);
    }
  }

  /**
   * A missing dimension gives `Unknown`; the six listed sizes, and only
   * they, get their labels; every other size is shown as `WxH`.
   */
  lemma FormatResolutionByNumbers(width: int, height: int)
    ensures width == 0 || height == 0 ==> FormatResolution(width, height) == "Unknown"
    ensures width != 0 && height != 0 ==> (FormatResolution(width, height) ==
      if (width, height) in KnownSizes then KnownSizes[(width, height)] else SizeKey(width, height))
  {
    if (width, height) in KnownSizes {
      ResolutionLabelKey(width, height);
    } else {
      LabelledKeyIsListed(width, height);
    }
  }

  // --------------------------------------------------------------- duration

  /** Truncation toward zero, as JavaScript's `%` uses for the quotient. */
  function Trunc(x: real): int {
    if x >= 0.0 then x.Floor else -((-x).Floor)
  }

  /** JavaScript's `x % m`: the remainder takes the sign of `x`. */
  function JsRem(x: real, m: real): real
    requires m != 0.0
  {
    x - m * Trunc(x / m) as real
  }

  /** The hours, minutes and seconds `formatDuration` computes. */
  datatype Clock = Clock(hrs: int, mins: int, secs: int)

  function DurationParts(seconds: real): Clock {
    Clock(
      (seconds / 3600.0).Floor,
      (JsRem(seconds, 3600.0) / 60.0).Floor,
      JsRem(seconds, 60.0).Floor)
  }

  /** The text of a reading: `h:mm:ss` when there are hours, `m:ss` otherwise. */
  function ClockText(c: Clock): string {
    if c.hrs > 0 then IntToString(c.hrs) + ":" + PadTwo(c.mins) + ":" + PadTwo(c.secs)
    else IntToString(c.mins) + ":" + PadTwo(c.secs)
  }

  /** `formatDuration(seconds)`. */
  function FormatDuration(seconds: real): string {
    ClockText(DurationParts(seconds))
  }

  /** Flooring a non-negative quotient by 60 or 3600 is integer division of the floor. */
  lemma FloorOfQuotient(x: real, d: int)
    requires x >= 0.0 && (d == 60 || d == 3600)
    ensures (x / d as real).Floor == x.Floor / d
  {
    var q := (x / d as real).Floor;
    var n := x.Floor;
    if d == 60 {
      assert q as real * 60.0 <= x < (q as real + 1.0) * 60.0;
      assert q * 60 <= n < (q + 1) * 60;
    } else {
      assert q as real * 3600.0 <= x < (q as real + 1.0) * 3600.0;
      assert q * 3600 <= n < (q + 1) * 3600;
    }
  }

  /**
   * For a non-negative duration the parts are a proper clock reading:
   * minutes and seconds below 60, and together exactly the whole seconds.
   */
  lemma DurationPartsSplitWholeSeconds(seconds: real)
    requires seconds >= 0.0
    ensures var c := DurationParts(seconds);
      && 0 <= c.hrs && 0 <= c.mins < 60 && 0 <= c.secs < 60
      && c.hrs * 3600 + c.mins * 60 + c.secs == seconds.Floor
  {
    var n := seconds.Floor;
    var c := DurationParts(seconds);
    FloorOfQuotient(seconds, 3600);
    FloorOfQuotient(seconds, 60);
    var h := n / 3600;
    assert Trunc(seconds / 3600.0) == h;
    var r := JsRem(seconds, 3600.0);
    assert r == seconds - (3600 * h) as real;
    assert r >= 0.0;
    assert r.Floor == n - 3600 * h by {
      assert (seconds - (3600 * h) as real).Floor == seconds.Floor - 3600 * h;
    }
    FloorOfQuotient(r, 60);
    assert c.mins == (n - 3600 * h) / 60;
    var q := n / 60;
    assert Trunc(seconds / 60.0) == q;
    assert JsRem(seconds, 60.0) == seconds - (60 * q) as real;
    assert c.secs == n - 60 * q;
    assert n - 3600 * h == n % 3600;
    var m := (n % 3600) / 60;
    assert n == 60 * q + n % 60;
    assert n % 3600 == 60 * m + (n % 3600) % 60;
    assert q == 60 * h + m by {
      assert n == 3600 * h + 60 * m + (n % 3600) % 60;
      assert 0 <= (n % 3600) % 60 < 60;
    }
  }

  /** Splits `rest:dd` into `rest` and the value of the two digits `dd`. */
  function SplitLastField(t: string): Option<(string, nat)> {
    if |t| < 4 || t[|t| - 3] != ':' || !AllDigits(t[|t| - 2..]) then None
    else Some((t[..|t| - 3], ParseNat(t[|t| - 2..])))
  }

  /** Reads an `h:mm:ss` or `m:ss` reading back as a number of seconds. */
  function ClockSeconds(t: string): Option<nat> {
    match SplitLastField(t)
    case None => None
    case Some((rest, secs)) =>
      match SplitLastField(rest)
      case Some((hrs, mins)) => if AllDigits(hrs) then Some(ParseNat(hrs) * 3600 + mins * 60 + secs) else None
      case None => if AllDigits(rest) then Some(ParseNat(rest) * 60 + secs) else None
  }

  lemma SplitLastFieldOf(rest: string, dd: string)
    requires 1 <= |rest| && |dd| == 2 && AllDigits(dd)
    ensures SplitLastField(rest + ":" + dd) == Some((rest, ParseNat(dd)))
  {
    var t := rest + ":" + dd;
    assert t[|t| - 3] == ':';
    assert t[|t| - 2..] == dd;
    assert t[..|t| - 3] == rest;
  }

  lemma SplitTwoFields(hh: string, mm: string, ss: string, t: string, rest: string)
    requires 1 <= |hh| && |mm| == 2 && AllDigits(mm) && |ss| == 2 && AllDigits(ss)
    requires rest == hh + ":" + mm && t == rest + ":" + ss
    ensures SplitLastField(t) == Some((rest, ParseNat(ss)))
    ensures SplitLastField(rest) == Some((hh, ParseNat(mm)))
  {
    SplitLastFieldOf(rest, ss);
    SplitLastFieldOf(hh, mm);
  }

  lemma ClockSecondsOfHours(t: string, rest: string, hrs: string, mins: nat, secs: nat)
    requires SplitLastField(t) == Some((rest, secs))
    requires SplitLastField(rest) == Some((hrs, mins)) && AllDigits(hrs)
    ensures ClockSeconds(t) == Some(ParseNat(hrs) * 3600 + mins * 60 + secs)
  {
  }

  lemma ClockSecondsOfMinutes(t: string, rest: string, secs: nat)
    requires SplitLastField(t) == Some((rest, secs))
    requires SplitLastField(rest) == None && AllDigits(rest)
    ensures ClockSeconds(t) == Some(ParseNat(rest) * 60 + secs)
  {
  }

  /** `m:ss` reads back as m minutes and ss seconds. */
  lemma ClockSecondsShort(t: string, m: string, ss: string, mins: nat, secs: nat)
    requires 1 <= |m| <= 3 && AllDigits(m) && |ss| == 2 && AllDigits(ss)
    requires t == m + ":" + ss && ParseNat(m) == mins && ParseNat(ss) == secs
    ensures ClockSeconds(t) == Some(mins * 60 + secs)
  {
    SplitLastFieldOf(m, ss);
    assert SplitLastField(m) == None;
    ClockSecondsOfMinutes(t, m, secs);
  }

  /** `h:mm:ss` reads back as h hours, mm minutes and ss seconds. */
  lemma ClockSecondsLong(t: string, hh: string, mm: string, ss: string, hrs: nat, mins: nat, secs: nat)
    requires 1 <= |hh| && AllDigits(hh) && |mm| == 2 && AllDigits(mm) && |ss| == 2 && AllDigits(ss)
    requires t == hh + ":" + mm + ":" + ss && ParseNat(hh) == hrs && ParseNat(mm) == mins && ParseNat(ss) == secs
    ensures ClockSeconds(t) == Some(hrs * 3600 + mins * 60 + secs)
  {
    var rest := hh + ":" + mm;
    assert t == rest + ":" + ss;
    SplitTwoFields(hh, mm, ss, t, rest);
    ClockSecondsOfHours(t, rest, hh, mins, secs);
  }

  /** A reading without hours, `m:ss`, reads back as its seconds. */
  lemma ShortClockRoundTrip(c: Clock)
    requires c.hrs <= 0 && 0 <= c.mins < 60 && 0 <= c.secs < 60
    ensures ClockSeconds(ClockText(c)) == Some(c.mins * 60 + c.secs)
  {
    var m := NatToString(c.mins);
    var ss := PadTwo(c.secs);
    PadTwoRoundTrip(c.secs);
    ParseNatToString(c.mins);
    ClockSecondsShort(ClockText(c), m, ss, c.mins, c.secs);
  }

  lemma LongClockText(c: Clock)
    requires 0 < c.hrs
    ensures ClockText(c) == NatToString(c.hrs) + ":" + PadTwo(c.mins) + ":" + PadTwo(c.secs)
  {
  }

  /** The fields of `h:mm:ss`, rendered from numbers, read back as those numbers. */
  lemma RenderedLongClock(t: string, hrs: nat, mins: nat, secs: nat)
    requires 0 < hrs && mins < 60 && secs < 60
    requires t == NatToString(hrs) + ":" + PadTwo(mins) + ":" + PadTwo(secs)
    ensures ClockSeconds(t) == Some(hrs * 3600 + mins * 60 + secs)
  {
    var hh := NatToString(hrs);
    var mm := PadTwo(mins);
    var ss := PadTwo(secs);
    PadTwoRoundTrip(mins);
    PadTwoRoundTrip(secs);
    ParseNatToString(hrs);
    ClockSecondsLong(t, hh, mm, ss, hrs, mins, secs);
  }

  /** A reading with hours, `h:mm:ss`, reads back as its seconds. */
  lemma LongClockRoundTrip(c: Clock)
    requires 0 < c.hrs && 0 <= c.mins < 60 && 0 <= c.secs < 60
    ensures ClockSeconds(ClockText(c)) == Some(c.hrs * 3600 + c.mins * 60 + c.secs)
  {
    LongClockText(c);
    RenderedLongClock(ClockText(c), c.hrs, c.mins, c.secs);
  }

  /** A proper reading's text reads back as the seconds it stands for. */
  lemma ClockTextRoundTrip(c: Clock)
    requires 0 <= c.hrs && 0 <= c.mins < 60 && 0 <= c.secs < 60
    ensures ClockSeconds(ClockText(c)) == Some(c.hrs * 3600 + c.mins * 60 + c.secs)
  {
    if c.hrs > 0 {
      LongClockRoundTrip(c);
    } else {
      ShortClockRoundTrip(c);
    }
  }

  /** The text `formatDuration` produces reads back as the whole number of seconds. */
  lemma FormatDurationRoundTrip(seconds: real)
    requires seconds >= 0.0
    ensures ClockSeconds(FormatDuration(seconds)) == Some(seconds.Floor)
  {
    DurationPartsSplitWholeSeconds(seconds);
    ClockTextRoundTrip(DurationParts(seconds));
  }

  /** Below one hour the reading has one colon, from one hour on it has two. */
  lemma FormatDurationShape(seconds: real)
    requires seconds >= 0.0
    ensures var c := DurationParts(seconds);
      && (seconds < 3600.0 <==> c.hrs == 0)
      && (c.hrs == 0 ==> FormatDuration(seconds) == NatToString(c.mins) + ":" + PadTwo(c.secs))
      && (c.hrs > 0 ==> FormatDuration(seconds) == NatToString(c.hrs) + ":" + PadTwo(c.mins) + ":" + PadTwo(c.secs))
  {
    DurationPartsSplitWholeSeconds(seconds);
  }

  // ---------------------------------------------------------- quality colour

  const Green: string := "#00ff88"
  const Amber: string := "#ffaa00"
  const Red: string := "#ff4444"
  const Grey: string := "#888888"

  /** `getQualityColor(metric, type)`; `None` is an omitted type, which defaults to `latency`. */
  function GetQualityColor(metric: real, metricType: Option<string>): string {
    var t := if metricType.Some? then metricType.value else "latency";
    if t == "latency" then
      if metric < 50.0 then Green else if metric < 100.0 then Amber else Red
    else if t == "packetLoss" then
      if metric < 1.0 then Green else if metric < 5.0 then Amber else Red
    else if t == "fps" then
      if metric >= 55.0 then Green else if metric >= 25.0 then Amber else Red
    else Grey
  }

  /** How bad a colour is: green 0, amber 1, red 2. */
  function Severity(color: string): nat {
    if color == Green then 0 else if color == Amber then 1 else 2
  }

  /** Where lower is better (latency, packet loss), a worse metric never gets a better colour. */
  lemma LowerIsBetterMonotone(m1: real, m2: real, metricType: Option<string>)
    requires metricType == None || metricType == Some("latency") || metricType == Some("packetLoss")
    requires m1 <= m2
    ensures Severity(GetQualityColor(m1, metricType)) <= Severity(GetQualityColor(m2, metricType))
  {
  }

  /** For frame rate higher is better: a lower rate never gets a better colour. */
  lemma FrameRateMonotone(m1: real, m2: real)
    requires m1 >= m2
    ensures Severity(GetQualityColor(m1, Some("fps"))) <= Severity(GetQualityColor(m2, Some("fps")))
  {
  }

  /** The thresholds, each band as an if-and-only-if; any other type is grey. */
  lemma QualityThresholds(metric: real, metricType: Option<string>)
    ensures metricType == None ==> GetQualityColor(metric, None) == GetQualityColor(metric, Some("latency"))
    ensures GetQualityColor(metric, Some("latency")) == Green <==> metric < 50.0
    ensures GetQualityColor(metric, Some("latency")) == Red <==> metric >= 100.0
    ensures GetQualityColor(metric, Some("packetLoss")) == Green <==> metric < 1.0
    ensures GetQualityColor(metric, Some("packetLoss")) == Red <==> metric >= 5.0
    ensures GetQualityColor(metric, Some("fps")) == Green <==> metric >= 55.0
    ensures GetQualityColor(metric, Some("fps")) == Red <==> metric < 25.0
    ensures metricType.Some? && metricType.value !in {"latency", "packetLoss", "fps"} ==>
      GetQualityColor(metric, metricType) == Grey
  {
  }

  // ---------------------------------------------------------------- browser

  /** `getBrowser()` for the user-agent string `ua`. */
  function GetBrowser(ua: string): string {
    if Contains(ua, "Firefox") then "Firefox"
    else if Contains(ua, "SamsungBrowser") then "Samsung"
    else if Contains(ua, "Opera") || Contains(ua, "OPR") then "Opera"
    else if Contains(ua, "Trident") then "IE"
    else if Contains(ua, "Edge") then "Edge"
    else if Contains(ua, "Chrome") then "Chrome"
    else if Contains(ua, "Safari") then "Safari"
    else "Unknown"
  }

  /** A detection rule: the browser name and the markers any one of which identifies it. */
  datatype Rule = Rule(markers: seq<string>, name: string)

  /** The rules in the order they are tried. */
  const BrowserRules: seq<Rule> := [
    Rule(["Firefox"], "Firefox"),
    Rule(["SamsungBrowser"], "Samsung"),
    Rule(["Opera", "OPR"], "Opera"),
    Rule(["Trident"], "IE"),
    Rule(["Edge"], "Edge"),
    Rule(["Chrome"], "Chrome"),
    Rule(["Safari"], "Safari")]

  /** Whether `ua` carries any of the markers. */
  predicate MatchesAny(ua: string, markers: seq<string>) {
    exists i :: 0 <= i < |markers| && Contains(ua, markers[i])
  }

  /** The name of the first rule whose markers occur in `ua`, or `Unknown`. */
  function FirstMatch(ua: string, rules: seq<Rule>): string {
    if rules == [] then "Unknown"
    else if MatchesAny(ua, rules[0].markers) then rules[0].name
    else FirstMatch(ua, rules[1..])
  }

  lemma MatchesOne(ua: string, p: string)
    ensures MatchesAny(ua, [p]) == Contains(ua, p)
  {
    assert [p][0] == p;
  }

  lemma MatchesEither(ua: string, p: string, q: string)
    ensures MatchesAny(ua, [p, q]) == (Contains(ua, p) || Contains(ua, q))
  {
    assert [p, q][0] == p && [p, q][1] == q;
  }

  /** Trying a rule ahead of others: its name on a match, otherwise the others' answer. */
  lemma FirstMatchStep(ua: string, r: Rule, rest: seq<Rule>)
    ensures FirstMatch(ua, [r] + rest) == if MatchesAny(ua, r.markers) then r.name else FirstMatch(ua, rest)
  {
    assert ([r] + rest)[1..] == rest;
  }

  /** `getBrowser` is the first-match search over the rule list. */
  lemma GetBrowserIsFirstMatch(ua: string)
    ensures GetBrowser(ua) == FirstMatch(ua, BrowserRules)
  {
    var r7: seq<Rule> := [];
    var r6 := [Rule(["Safari"], "Safari")] + r7;
    var r5 := [Rule(["Chrome"], "Chrome")] + r6;
    var r4 := [Rule(["Edge"], "Edge")] + r5;
    var r3 := [Rule(["Trident"], "IE")] + r4;
    var r2 := [Rule(["Opera", "OPR"], "Opera")] + r3;
    var r1 := [Rule(["SamsungBrowser"], "Samsung")] + r2;
    var r0 := [Rule(["Firefox"], "Firefox")] + r1;
    assert r0 == BrowserRules;
    FirstMatchStep(ua, Rule(["Safari"], "Safari"), r7);
    MatchesOne(ua, "Safari");
    FirstMatchStep(ua, Rule(["Chrome"], "Chrome"), r6);
    MatchesOne(ua, "Chrome");
    FirstMatchStep(ua, Rule(["Edge"], "Edge"), r5);
    MatchesOne(ua, "Edge");
    FirstMatchStep(ua, Rule(["Trident"], "IE"), r4);
    MatchesOne(ua, "Trident");
    FirstMatchStep(ua, Rule(["Opera", "OPR"], "Opera"), r3);
    MatchesEither(ua, "Opera", "OPR");
    FirstMatchStep(ua, Rule(["SamsungBrowser"], "Samsung"), r2);
    MatchesOne(ua, "SamsungBrowser");
    FirstMatchStep(ua, Rule(["Firefox"], "Firefox"), r1);
    MatchesOne(ua, "Firefox");
  }

  /**
   * A user agent carrying both `Chrome` and `Safari`, and none of the markers
   * tested before Chrome, is reported as Chrome. Samsung Internet and Opera
   * user agents also carry both, but their own markers are tested first.
   */
  lemma ChromeWinsOverSafari(ua: string)
    requires Contains(ua, "Chrome") && Contains(ua, "Safari")
    requires !Contains(ua, "Firefox") && !Contains(ua, "SamsungBrowser") && !Contains(ua, "Opera")
    requires !Contains(ua, "OPR") && !Contains(ua, "Trident") && !Contains(ua, "Edge")
    ensures GetBrowser(ua) == "Chrome"
  {
  }

  /** A user agent with none of the markers is `Unknown`. */
  lemma NoMarkerIsUnknown(ua: string)
    requires forall r, i :: r in BrowserRules && 0 <= i < |r.markers| ==> !Contains(ua, r.markers[i])
    ensures GetBrowser(ua) == "Unknown"
  {
    assert BrowserRules[0].markers[0] == "Firefox";
    assert BrowserRules[1].markers[0] == "SamsungBrowser";
    assert BrowserRules[2].markers[0] == "Opera" && BrowserRules[2].markers[1] == "OPR";
    assert BrowserRules[3].markers[0] == "Trident";
    assert BrowserRules[4].markers[0] == "Edge";
    assert BrowserRules[5].markers[0] == "Chrome";
    assert BrowserRules[6].markers[0] == "Safari";
  }
}
