/**
 * The font and media pattern scoring of the enhanced detection: the fonts
 * a page can measure and the codecs it can decode each vote for the
 * systems they are typical of, in score tables whose entries appear only
 * once a vote reaches them.
 */
module Patterns {
  import opened Options
  import opened Platforms
  import opened Scoring

  // ---------------------------------------------------------------------------
  // Fonts
  // ---------------------------------------------------------------------------

  /** The fonts with an entry in `fontOSMapping`. */
  datatype Font = AppleSystem | BlinkMacSystem | SegoeUi | Roboto | Ubuntu | HelveticaNeue | SanFrancisco | SfNsText | SfUiText | Arial

  /** The mapping's key for a font name, if it has one. */
  function FontOf(name: string): Option<Font>
  {
    if name == "-apple-system" then Some(AppleSystem)
    else if name == "BlinkMacSystemFont" then Some(BlinkMacSystem)
    else if name == "Segoe UI" then Some(SegoeUi)
    else if name == "Roboto" then Some(Roboto)
    else if name == "Ubuntu" then Some(Ubuntu)
    else if name == "Helvetica Neue" then Some(HelveticaNeue)
    else if name == "San Francisco" then Some(SanFrancisco)
    else if name == ".SF NS Text" then Some(SfNsText)
    else if name == ".SF UI Text" then Some(SfUiText)
    else if name == "Arial" then Some(Arial)
    else None
  }

  /** `fontOSMapping`'s entry for a font. */
  function TargetsOf(f: Font): seq<Os>
  {
    match f
    case AppleSystem => [MacOs, Ios, IpadOs]
    case BlinkMacSystem => [MacOs]
    case SegoeUi => [Windows]
    case Roboto => [Android, Windows, Linux]
    case Ubuntu => [Linux]
    case HelveticaNeue => [MacOs, Ios, IpadOs]
    case SanFrancisco => [MacOs, Ios, IpadOs]
    case SfNsText => [MacOs]
    case SfUiText => [MacOs]
    case Arial => [Windows, MacOs, Linux]
  }

  /** The systems a measured font points to; a font without an entry points nowhere. */
  function FontTargets(name: string): seq<Os>
  {
    match FontOf(name)
    case None => []
    case Some(f) => TargetsOf(f)
  }

  /** No target list names a system twice, so one font adds at most one point to a system. */
  lemma FontTargetsDistinct(font: string, o: Os)
    ensures multiset(FontTargets(font))[o] <= 1
  {
    match FontOf(font)
    case None =>
    case Some(f) => TargetsDistinct(f, o);
  }

  lemma TargetsDistinct(f: Font, o: Os)
    ensures multiset(TargetsOf(f))[o] <= 1
  {
    var t := TargetsOf(f);
    assert forall i, j :: 0 <= i < j < |t| ==> t[i] != t[j];
    CountDistinct(t, o);
  }

  /** The fonts Object.entries(fontResults) reports as present, in their order. */
  function DetectedFonts(results: seq<(string, bool)>): (fonts: seq<string>)
    ensures |fonts| <= |results|
    ensures forall f :: f in fonts <==> (f, true) in results
  {
    if |results| == 0 then []
    else
      var rest := DetectedFonts(results[1..]);
      assert forall p :: p in results <==> p == results[0] || p in results[1..];
      if results[0].1 then [results[0].0] + rest else rest
  }

  /**
   * How many points a list of fonts gives a system when each font points to
   * the systems `targets` names for it: one per mention.
   */
  function Points(targets: string -> seq<Os>, fonts: seq<string>, o: Os): nat
  {
    if |fonts| == 0 then 0
    else Points(targets, fonts[..|fonts| - 1], o) + multiset(targets(fonts[|fonts| - 1]))[o]
  }

  /** How many points font detection gives a system. */
  function Mentions(fonts: seq<string>, o: Os): nat
  {
    Points(FontTargets, fonts, o)
  }

  /** The points do not depend on how the fonts are split: the count over a concatenation is the sum. */
  lemma {:induction false} PointsAppend(targets: string -> seq<Os>, a: seq<string>, b: seq<string>, o: Os)
    ensures Points(targets, a + b, o) == Points(targets, a, o) + Points(targets, b, o)
    decreases |b|
  {
    if |b| == 0 {
      assert a + b == a;
    } else {
      var b' := b[..|b| - 1];
      assert (a + b)[..|a + b| - 1] == a + b';
      assert (a + b)[|a + b| - 1] == b[|b| - 1];
      PointsAppend(targets, a, b', o);
    }
  }

  /** With target lists that never repeat a system, a system gets at most one point per font. */
  lemma {:induction false} PointsBound(targets: string -> seq<Os>, fonts: seq<string>, o: Os)
    requires forall f :: multiset(targets(f))[o] <= 1
    ensures Points(targets, fonts, o) <= |fonts|
  {
    if |fonts| > 0 {
      PointsBound(targets, fonts[..|fonts| - 1], o);
    }
  }

  /** A system gets a point exactly when some font points to it. */
  lemma {:induction false} PointsPositive(targets: string -> seq<Os>, fonts: seq<string>, o: Os)
    ensures Points(targets, fonts, o) > 0 <==> exists i :: 0 <= i < |fonts| && o in targets(fonts[i])
  {
    if |fonts| > 0 {
      var n := |fonts| - 1;
      var init := fonts[..n];
      PointsPositive(targets, init, o);
      if Points(targets, fonts, o) > 0 {
        if Points(targets, init, o) > 0 {
          var i :| 0 <= i < |init| && o in targets(init[i]);
          assert fonts[i] == init[i];
        } else {
          assert o in targets(fonts[n]);
        }
      }
      if exists i :: 0 <= i < |fonts| && o in targets(fonts[i]) {
        var i :| 0 <= i < |fonts| && o in targets(fonts[i]);
        if i < n {
          assert init[i] == fonts[i];
        }
      }
    }
  }

  /** Font detection gives a system at most one point per detected font. */
  lemma MentionsBound(fonts: seq<string>, o: Os)
    ensures Mentions(fonts, o) <= |fonts|
  {
    forall f ensures multiset(FontTargets(f))[o] <= 1 {
      FontTargetsDistinct(f, o);
    }
    PointsBound(FontTargets, fonts, o);
  }

  /** The fonts behind `hasAppleFonts`. */
  const AppleFonts: seq<string> := ["-apple-system", "BlinkMacSystemFont", "Helvetica Neue", "San Francisco", ".SF NS Text", ".SF UI Text"]

  /** `performFontDetection()`'s result. */
  datatype FontReport = FontReport(
    detectedFonts: seq<string>,
    osScores: map<Os, int>,
    hasAppleFonts: bool,
    hasWindowsFonts: bool,
    hasLinuxFonts: bool,
    hasAndroidFonts: bool)

  predicate HasAppleFonts(fonts: seq<string>)
  {
    exists f :: f in fonts && f in AppleFonts
  }

  /** `m` is the font score table after `fonts`, plus one point per entry of `extra`. */
  ghost predicate Tallies(m: map<Os, int>, fonts: seq<string>, extra: seq<Os>)
  {
    forall o: Os :: (o in m <==> Mentions(fonts, o) + multiset(extra)[o] > 0)
                    && (o in m ==> m[o] == Mentions(fonts, o) + multiset(extra)[o])
  }

  /**
   * The score table over the measured fonts: for each detected font in turn,
   * for each system it points to, `osScores[os] = (osScores[os] || 0) + 1`.
   */
  method PerformFontDetection(results: seq<(string, bool)>) returns (report: FontReport)
    ensures report.detectedFonts == DetectedFonts(results)
    ensures forall o: Os :: o in report.osScores <==> Mentions(report.detectedFonts, o) > 0
    ensures forall o: Os :: o in report.osScores ==> report.osScores[o] == Mentions(report.detectedFonts, o)
    ensures report.hasAppleFonts == HasAppleFonts(report.detectedFonts)
    ensures report.hasWindowsFonts == ("Segoe UI" in report.detectedFonts)
    ensures report.hasLinuxFonts == ("Ubuntu" in report.detectedFonts)
    ensures report.hasAndroidFonts == ("Roboto" in report.detectedFonts)
  {
    var fonts := DetectedFonts(results);
    var osScores: map<Os, int> := map[];
    var i := 0;
    while i < |fonts|
      invariant 0 <= i <= |fonts|
      invariant Tallies(osScores, fonts[..i], [])
    {
      osScores := AddTargets(osScores, fonts[..i], FontTargets(fonts[i]));
      TalliesNextFont(osScores, fonts, i);
      i := i + 1;
    }
    assert fonts[..i] == fonts;
    report := FontReport(fonts, osScores, HasAppleFonts(fonts), "Segoe UI" in fonts, "Ubuntu" in fonts, "Roboto" in fonts);
  }

  /** The inner loop: one point to each system a font points to. */
  method AddTargets(m: map<Os, int>, ghost fonts: seq<string>, targets: seq<Os>) returns (r: map<Os, int>)
    requires Tallies(m, fonts, [])
    ensures Tallies(r, fonts, targets)
  {
    r := m;
    var j := 0;
    while j < |targets|
      invariant 0 <= j <= |targets|
      invariant Tallies(r, fonts, targets[..j])
    {
      assert targets[..j + 1] == targets[..j] + [targets[j]];
      r := Bump(r, targets[j], 1);
      j := j + 1;
    }
    assert targets[..j] == targets;
  }

  lemma TalliesNextFont(m: map<Os, int>, fonts: seq<string>, i: nat)
    requires i < |fonts| && Tallies(m, fonts[..i], FontTargets(fonts[i]))
    ensures Tallies(m, fonts[..i + 1], [])
  {
    assert fonts[..i + 1][..i] == fonts[..i];
    assert fonts[..i + 1][i] == fonts[i];
  }

  /** A detected font points to a system only if that system scores at least one point. */
  lemma MentionedFontScores(fonts: seq<string>, f: string, o: Os)
    requires f in fonts && o in FontTargets(f)
    ensures Mentions(fonts, o) > 0
  {
    var i :| 0 <= i < |fonts| && fonts[i] == f;
    PointsPositive(FontTargets, fonts, o);
  }

  /**
   * Each family flag comes with a point for its system: every Apple font
   * points to macOS, Segoe UI to Windows, Ubuntu to Linux and Roboto to Android.
   */
  lemma FontFlagsScore(fonts: seq<string>)
    ensures HasAppleFonts(fonts) ==> Mentions(fonts, MacOs) > 0
    ensures "Segoe UI" in fonts ==> Mentions(fonts, Windows) > 0
    ensures "Ubuntu" in fonts ==> Mentions(fonts, Linux) > 0
    ensures "Roboto" in fonts ==> Mentions(fonts, Android) > 0
  {
    if HasAppleFonts(fonts) {
      var f :| f in fonts && f in AppleFonts;
      MentionedFontScores(fonts, f, MacOs);
    }
    if "Segoe UI" in fonts { MentionedFontScores(fonts, "Segoe UI", Windows); }
    if "Ubuntu" in fonts { MentionedFontScores(fonts, "Ubuntu", Linux); }
    if "Roboto" in fonts { MentionedFontScores(fonts, "Roboto", Android); }
  }

  // ---------------------------------------------------------------------------
  // Media
  // ---------------------------------------------------------------------------

  /** The codecs `checkMediaCapabilities()` reports as decodable. */
  datatype MediaCaps = MediaCaps(hevc: bool, vp9: bool, av1: bool)

  /** The points each codec gives a system: HEVC 2 to the Apple systems, VP9 1 to all but iOS and iPadOS, AV1 1 to Android, Windows and macOS. */
  function MediaPoints(caps: MediaCaps, o: Os): nat
  {
    (if caps.hevc && IsApple(o) then 2 else 0)
    + (if caps.vp9 && o !in {Ios, IpadOs} then 1 else 0)
    + (if caps.av1 && o in {Android, Windows, MacOs} then 1 else 0)
  }

  /** `osMediaPatterns`, built by the flat chain of `(osMediaPatterns.x || 0) + k` updates. */
  method PerformMediaAnalysis(caps: MediaCaps) returns (patterns: map<Os, int>)
    ensures forall o: Os :: o in patterns <==> MediaPoints(caps, o) > 0
    ensures forall o: Os :: o in patterns ==> patterns[o] == MediaPoints(caps, o)
  {
    patterns := map[];
    if caps.hevc {
      patterns := Bump(patterns, MacOs, 2);
      patterns := Bump(patterns, Ios, 2);
      patterns := Bump(patterns, IpadOs, 2);
    }
    if caps.vp9 {
      patterns := Bump(patterns, Android, 1);
      patterns := Bump(patterns, Windows, 1);
      patterns := Bump(patterns, Linux, 1);
      patterns := Bump(patterns, MacOs, 1);
    }
    if caps.av1 {
      patterns := Bump(patterns, Android, 1);
      patterns := Bump(patterns, Windows, 1);
      patterns := Bump(patterns, MacOs, 1);
    }
    forall o: Os ensures o in patterns <==> MediaPoints(caps, o) > 0 {
      match o
      case Android => case Ios => case IpadOs => case MacOs => case Windows => case Linux =>
    }
  }

  /**
   * macOS is favoured by every codec, so it never scores below another
   * system; iOS and iPadOS always score alike, and only through HEVC.
   */
  lemma MediaFavoursMacos(caps: MediaCaps, o: Os)
    ensures MediaPoints(caps, o) <= MediaPoints(caps, MacOs)
    ensures MediaPoints(caps, Ios) == MediaPoints(caps, IpadOs) == (if caps.hevc then 2 else 0)
  {
  }

  /** Support for more codecs never lowers a system's points. */
  lemma MediaMonotone(a: MediaCaps, b: MediaCaps, o: Os)
    requires (a.hevc ==> b.hevc) && (a.vp9 ==> b.vp9) && (a.av1 ==> b.av1)
    ensures MediaPoints(a, o) <= MediaPoints(b, o)
  {
  }
}
