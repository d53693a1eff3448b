/**
 * `breakTieWithUA`: when several systems share the top score, an ordered
 * chain of keyword tests over the lower-cased user agent and platform picks
 * one of them, or none.
 */
module TieBreak {
  import opened Options
  import opened Strings
  import opened Platforms

  /** The keyword tests the chain performs, evaluated once. */
  datatype UaFlags = UaFlags(
    android: bool,       // /android/ on the user agent
    harmony: bool,       // /openharmony|harmonyos/i on the user agent
    iphone: bool,        // /iphone|ipod/
    ipad: bool,          // /ipad/
    macLike: bool,       // /mac os x|macintosh/ on the user agent, or /mac/ on the platform
    mobile: bool,        // /mobile/
    windowsNt: bool,     // /windows nt/
    linuxLike: bool)     // /cros|x11|linux/

  /** `navigator.userAgent.toLowerCase()` and `navigator.platform.toLowerCase()` against the chain's keywords. */
  function UaFlagsOf(userAgent: string, platform: string): UaFlags
  {
    var ua := Lower(userAgent);
    var pf := Lower(platform);
    UaFlags(
      Contains(ua, "android"),
      Contains(ua, "openharmony") || Contains(ua, "harmonyos"),
      Contains(ua, "iphone") || Contains(ua, "ipod"),
      Contains(ua, "ipad"),
      Contains(ua, "mac os x") || Contains(ua, "macintosh") || Contains(pf, "mac"),
      Contains(ua, "mobile"),
      Contains(ua, "windows nt"),
      Contains(ua, "cros") || Contains(ua, "x11") || Contains(ua, "linux"))
  }

  /** `pick(name)`: the name when it is one of the candidates. */
  function Pick(c: seq<Os>, o: Os): (r: Option<Os>)
    ensures r.Some? <==> o in c
    ensures r.Some? ==> r.value == o
  {
    if o in c then Some(o) else None
  }

  /**
   * The chain over evaluated keyword tests. Each test returns only when its
   * pick hits and otherwise falls through to the next one, except the
   * HarmonyOS test, which returns `android` whatever the candidates are.
   * `pick('harmonyos')` can never hit, since no candidate has that id, and
   * is left out.
   */
  function Chain(c: seq<Os>, f: UaFlags): Option<Os>
  {
    if f.android && Pick(c, Android).Some? then Pick(c, Android)
    else if f.harmony then Some(Android)
    else if f.iphone && Or(Pick(c, Ios), Pick(c, IpadOs)).Some? then Or(Pick(c, Ios), Pick(c, IpadOs))
    else if f.ipad && Or(Pick(c, IpadOs), Pick(c, Ios)).Some? then Or(Pick(c, IpadOs), Pick(c, Ios))
    else if f.macLike && f.mobile && Or(Pick(c, IpadOs), Pick(c, Ios)).Some? then Or(Pick(c, IpadOs), Pick(c, Ios))
    else if f.macLike && Or(Pick(c, MacOs), Pick(c, IpadOs)).Some? then Or(Pick(c, MacOs), Pick(c, IpadOs))
    else if f.windowsNt && Pick(c, Windows).Some? then Pick(c, Windows)
    else if f.linuxLike && Pick(c, Linux).Some? then Pick(c, Linux)
    else None
  }

  /** `breakTieWithUA(candidates).hit`. */
  function BreakTie(c: seq<Os>, userAgent: string, platform: string): Option<Os>
  {
    Chain(c, UaFlagsOf(userAgent, platform))
  }

  /**
   * The answer is a candidate, except through the HarmonyOS override, which
   * returns `android` even when it is not one.
   */
  lemma ChainPicksCandidate(c: seq<Os>, f: UaFlags)
    ensures Chain(c, f).Some? ==> Chain(c, f).value in c || (f.harmony && Chain(c, f) == Some(Android))
  {
  }

  /** A HarmonyOS or OpenHarmony user agent always resolves to `android`, inside the candidates or not. */
  lemma HarmonyForcesAndroid(c: seq<Os>, f: UaFlags)
    requires f.harmony
    ensures Chain(c, f) == Some(Android)
  {
  }

  /** A user agent and platform matching none of the keywords resolve nothing. */
  lemma NoKeywordNoHit(c: seq<Os>, f: UaFlags)
    requires !f.android && !f.harmony && !f.iphone && !f.ipad && !f.macLike && !f.windowsNt && !f.linuxLike
    ensures Chain(c, f) == None
  {
  }

  /**
   * Without the HarmonyOS override the chain answers only from the candidates,
   * and it stays silent exactly when no test's pick hits.
   */
  lemma ChainHitIffSomePick(c: seq<Os>, f: UaFlags)
    requires !f.harmony
    ensures Chain(c, f).Some? ==> Chain(c, f).value in c
    ensures Chain(c, f).None? <==>
              !(f.android && Android in c) && !(f.iphone && (Ios in c || IpadOs in c))
              && !(f.ipad && (IpadOs in c || Ios in c)) && !(f.macLike && (MacOs in c || IpadOs in c || (Ios in c && f.mobile)))
              && !(f.windowsNt && Windows in c) && !(f.linuxLike && Linux in c)
  {
  }

  /** An iPhone user agent with both Apple mobile systems tied resolves to iOS. */
  lemma IphoneTieIsIos(f: UaFlags)
    requires f.iphone && !f.android && !f.harmony
    ensures Chain([Ios, IpadOs], f) == Some(Ios)
  {
  }

  /** An iPad user agent (naming no iPhone, Android or HarmonyOS) resolves any tie that includes iPadOS to iPadOS. */
  lemma IpadTieIsIpados(c: seq<Os>, f: UaFlags)
    requires f.ipad && !f.iphone && !f.android && !f.harmony && IpadOs in c
    ensures Chain(c, f) == Some(IpadOs)
  {
  }

  /** A desktop-style iPadOS user agent (Macintosh plus Mobile) prefers iPadOS over macOS. */
  lemma MacintoshMobilePrefersIpados(c: seq<Os>, f: UaFlags)
    requires f.macLike && f.mobile && IpadOs in c
    requires !f.android && !f.harmony && !f.iphone && !f.ipad
    ensures Chain(c, f) == Some(IpadOs)
  {
  }

  /** The chain's test for Android comes before the test for Linux: an Android user agent with both tied gets Android. */
  lemma AndroidBeforeLinux(c: seq<Os>, f: UaFlags)
    requires f.android && f.linuxLike && Android in c && Linux in c
    ensures Chain(c, f) == Some(Android)
  {
  }

  /** The concrete Android user agent `Linux; Android 14` sets both the Android and the Linux flag. */
  lemma AndroidUaFlags()
    ensures UaFlagsOf("Linux; Android 14", "").android
    ensures UaFlagsOf("Linux; Android 14", "").linuxLike
  {
    var ua := Lower("Linux; Android 14");
    assert ua[7] == 'a';
    assert ua[7..14] == "android";
    assert OccursAt(ua, "android", 7);
    assert ua[0] == 'l';
    assert ua[0..5] == "linux";
    assert OccursAt(ua, "linux", 0);
  }
}
