/**
 * The small first-match classifiers of the page: `getOSInfo`, `isAppleDevice`,
 * `isApplePlatform`, the Client-Hints platform mapping, the two WebAuthn
 * inferences and `shouldDisableCanvas`. Each one evaluates its substring tests
 * into a record of flags once; the decision is a function of those flags.
 */
module Classifiers {
  import opened Options
  import opened Strings
  import opened Platforms

  // ---------------------------------------------------------------------------
  // getOSInfo and isAppleDevice

  /** The tests `getOSInfo` and `isAppleDevice` make on the lower-cased user agent (`ua*`) and platform (`pf*`). */
  datatype UaTests = UaTests(
    uaWindows: bool, uaMacOs: bool, uaLinux: bool, uaAndroid: bool, uaIphone: bool, uaIpad: bool,
    pfMac: bool, pfIphone: bool, pfIpad: bool, pfIpod: bool)

  function UaTestsOf(userAgent: string, platform: string): UaTests
  {
    var ua := Lower(userAgent);
    var pf := Lower(platform);
    UaTests(Contains(ua, "windows"), Contains(ua, "mac os"), Contains(ua, "linux"), Contains(ua, "android"),
            Contains(ua, "iphone"), Contains(ua, "ipad"),
            Contains(pf, "mac"), Contains(pf, "iphone"), Contains(pf, "ipad"), Contains(pf, "ipod"))
  }

  /** `getOSInfo()` over its tests: windows, mac, linux, android, then iPhone/iPad; `None` is `'unknown'`. */
  function OsInfo(t: UaTests): Option<Os>
  {
    if t.uaWindows then Some(Windows)
    else if t.uaMacOs || t.pfMac then Some(MacOs)
    else if t.uaLinux then Some(Linux)
    else if t.uaAndroid then Some(Android)
    else if t.uaIphone || t.uaIpad then (if t.pfIpad then Some(IpadOs) else Some(Ios))
    else None
  }

  function GetOsInfo(userAgent: string, platform: string): Option<Os>
  {
    OsInfo(UaTestsOf(userAgent, platform))
  }

  /** `isAppleDevice()` over the same tests. */
  predicate AppleDevice(t: UaTests)
  {
    t.pfMac || t.pfIphone || t.pfIpad || t.pfIpod || t.uaMacOs || t.uaIphone || t.uaIpad
  }

  predicate IsAppleDevice(userAgent: string, platform: string)
  {
    AppleDevice(UaTestsOf(userAgent, platform))
  }

  /**
   * What each answer of `getOSInfo` requires of the tests, and that it is
   * `'unknown'` exactly when no keyword matches.
   */
  lemma OsInfoCases(t: UaTests)
    ensures OsInfo(t) == Some(Windows) <==> t.uaWindows
    ensures OsInfo(t) == Some(MacOs) <==> !t.uaWindows && (t.uaMacOs || t.pfMac)
    ensures OsInfo(t) == Some(Linux) <==> !t.uaWindows && !t.uaMacOs && !t.pfMac && t.uaLinux
    ensures OsInfo(t) == Some(Android) <==> !t.uaWindows && !t.uaMacOs && !t.pfMac && !t.uaLinux && t.uaAndroid
    ensures OsInfo(t) == Some(IpadOs) <==>
              !t.uaWindows && !t.uaMacOs && !t.pfMac && !t.uaLinux && !t.uaAndroid && (t.uaIphone || t.uaIpad) && t.pfIpad
    ensures OsInfo(t) == None <==>
              !t.uaWindows && !t.uaMacOs && !t.pfMac && !t.uaLinux && !t.uaAndroid && !t.uaIphone && !t.uaIpad
  {
  }

  /** Every Apple answer of `getOSInfo` is also an Apple device for `isAppleDevice`. */
  lemma AppleOsInfoIsAppleDevice(t: UaTests)
    requires OsInfo(t).Some? && IsApple(OsInfo(t).value)
    ensures AppleDevice(t)
  {
  }

  /** An Android user agent also contains `linux`, so `getOSInfo` calls it Linux: the linux test comes first. */
  lemma AndroidUaIsLinux()
    ensures GetOsInfo("Linux; Android 14", "") == Some(Linux)
  {
    var ua := Lower("Linux; Android 14");
    assert ua[0] == 'l';
    assert ua[0..5] == "linux";
    assert OccursAt(ua, "linux", 0);
    MissingCharNotContained(ua, "windows", 'w');
    MissingCharNotContained(ua, "mac os", 'm');
    MissingCharNotContained(Lower(""), "mac", 'm');
  }

  // ---------------------------------------------------------------------------
  // isApplePlatform

  /** The probes of `isApplePlatform()`; the user agent and platform tests are case-sensitive except the first. */
  datatype ApplePlatformProbe = ApplePlatformProbe(
    applePay: bool, safariPush: bool, iosPermissionShape: bool,
    userAgent: string, platform: string, touchPoints: int, webkitTouch: bool)

  predicate IsApplePlatform(p: ApplePlatformProbe)
  {
    var ua := Lower(p.userAgent);
    var iphoneOrIpad := Contains(ua, "iphone") || Contains(ua, "ipad") || Contains(ua, "ipod");
    var isMac := Contains(p.platform, "Mac") || Contains(p.userAgent, "Mac OS X");
    var ipadOs13 := p.platform == "MacIntel" && p.touchPoints > 1;
    p.applePay || p.safariPush || p.iosPermissionShape || iphoneOrIpad || ipadOs13 || (isMac && p.webkitTouch)
  }

  /** The platform string `MacIntel` with more than one touch point is the iPadOS 13+ desktop mode, an Apple platform. */
  lemma MacIntelTouchIsApple(p: ApplePlatformProbe)
    requires p.platform == "MacIntel" && p.touchPoints > 1
    ensures IsApplePlatform(p)
  {
  }

  /** `MacIntel` alone, without touch or WebKit mobile CSS, is not enough. */
  lemma MacIntelAloneIsNotApple()
    ensures !IsApplePlatform(ApplePlatformProbe(false, false, false, "", "MacIntel", 0, false))
  {
    MissingCharNotContained(Lower(""), "iphone", 'i');
    MissingCharNotContained(Lower(""), "ipad", 'i');
    MissingCharNotContained(Lower(""), "ipod", 'i');
  }

  // ---------------------------------------------------------------------------
  // Client Hints

  /**
   * The Client-Hints platform mapping: the API's platform, or else the
   * header's (an empty string counts as absent), lower-cased and tested for
   * android, ios, macos, windows and linux in that order.
   */
  function ClientHintsOs(apiPlatform: string, headerPlatform: string): (r: Option<Os>)
    ensures r != Some(IpadOs)
    ensures apiPlatform == "" && headerPlatform == "" ==> r == None
  {
    var source := if apiPlatform != "" then apiPlatform else headerPlatform;
    if source == "" then None
    else
      var p := Lower(source);
      if Contains(p, "android") then Some(Android)
      else if Contains(p, "ios") then Some(Ios)
      else if Contains(p, "macos") then Some(MacOs)
      else if Contains(p, "windows") then Some(Windows)
      else if Contains(p, "linux") then Some(Linux)
      else None
  }

  /** The header's platform is consulted only when the API reports none. */
  lemma ClientHintsApiFirst(apiPlatform: string, headerPlatform: string)
    requires apiPlatform != ""
    ensures ClientHintsOs(apiPlatform, headerPlatform) == ClientHintsOs(apiPlatform, "")
  {
  }

  /** The platform value `macOS` maps to macOS: it does not trip the earlier `ios` test. */
  lemma ClientHintsMacos()
    ensures ClientHintsOs("macOS", "") == Some(MacOs)
  {
    var p := Lower("macOS");
    assert p == "macos";
    assert OccursAt(p, "macos", 0);
    MissingCharNotContained(p, "android", 'n');
    MissingCharNotContained(p, "ios", 'i');
  }

  // ---------------------------------------------------------------------------
  // WebAuthn

  /** The outcome of the WebAuthn feature probe. */
  datatype WebAuthnSupport = WebAuthnSupport(supported: bool, platformAuthenticator: bool)

  /** The user-agent and platform tests of `inferOSFromWebAuthnSupport`. */
  datatype AuthnTests = AuthnTests(
    iphoneLike: bool,    // /iphone|ipad|ipod/
    safari: bool,        // /safari/
    ipad: bool,          // /ipad/
    macintel: bool,      // platform lower-cased equals 'macintel'
    macUa: bool,         // /mac os x|macintosh/
    windowsNt: bool,     // /windows nt/
    android: bool,       // /android/
    windows: bool,       // /windows/
    linux: bool,         // /linux/
    mac: bool)           // /mac/

  function AuthnTestsOf(userAgent: string, platform: string): AuthnTests
  {
    var ua := Lower(userAgent);
    AuthnTests(Contains(ua, "iphone") || Contains(ua, "ipad") || Contains(ua, "ipod"), Contains(ua, "safari"),
               Contains(ua, "ipad"), Lower(platform) == "macintel",
               Contains(ua, "mac os x") || Contains(ua, "macintosh"), Contains(ua, "windows nt"),
               Contains(ua, "android"), Contains(ua, "windows"), Contains(ua, "linux"), Contains(ua, "mac"))
  }

  /** `inferOSFromWebAuthnSupport(result)` over its tests and `navigator.maxTouchPoints`. */
  function InferFromSupport(res: WebAuthnSupport, t: AuthnTests, touchPoints: int): Option<Os>
  {
    var fromPlatform :=
      if !res.platformAuthenticator then None
      else if t.iphoneLike && t.safari then (if t.ipad || (t.macintel && touchPoints > 0) then Some(IpadOs) else Some(Ios))
      else if t.macUa && touchPoints == 0 then Some(MacOs)
      else if t.windowsNt then Some(Windows)
      else if t.android then Some(Android)
      else None;
    if fromPlatform.Some? then fromPlatform
    else if res.supported && !res.platformAuthenticator then
      (if t.windows then Some(Windows) else if t.linux then Some(Linux) else if t.mac then Some(MacOs) else None)
    else None
  }

  /**
   * Without a platform authenticator only the desktop systems can be
   * inferred, and without WebAuthn at all nothing; with one, never Linux.
   */
  lemma SupportInferenceRanges(res: WebAuthnSupport, t: AuthnTests, touchPoints: int)
    ensures !res.supported && !res.platformAuthenticator ==> InferFromSupport(res, t, touchPoints) == None
    ensures !res.platformAuthenticator && InferFromSupport(res, t, touchPoints).Some? ==>
              InferFromSupport(res, t, touchPoints).value in {Windows, Linux, MacOs}
    ensures res.platformAuthenticator ==> InferFromSupport(res, t, touchPoints) != Some(Linux)
  {
  }

  /** iPadOS is inferred only for an iPhone/iPad/iPod Safari that names an iPad or reports `MacIntel` with touch. */
  lemma SupportIpadOnlyFromSafari(res: WebAuthnSupport, t: AuthnTests, touchPoints: int)
    ensures InferFromSupport(res, t, touchPoints) == Some(IpadOs) <==>
              res.platformAuthenticator && t.iphoneLike && t.safari && (t.ipad || (t.macintel && touchPoints > 0))
  {
  }

  /** The user-agent tests of `inferOSFromAuthenticatorResponse`. */
  datatype TransportTests = TransportTests(
    iphoneLike: bool,    // /iphone|ipad|ipod/
    iphoneOrIpad: bool,  // /iphone|ipad/
    ipad: bool, mac: bool, windows: bool, android: bool, linux: bool)

  function TransportTestsOf(userAgent: string): TransportTests
  {
    var ua := Lower(userAgent);
    TransportTests(Contains(ua, "iphone") || Contains(ua, "ipad") || Contains(ua, "ipod"),
                   Contains(ua, "iphone") || Contains(ua, "ipad"), Contains(ua, "ipad"),
                   Contains(ua, "mac"), Contains(ua, "windows"), Contains(ua, "android"), Contains(ua, "linux"))
  }

  /**
   * `inferOSFromAuthenticatorResponse` over the reported transports (`None`
   * when the authenticator info or its transports are missing): internal,
   * hybrid, usb, then nfc/ble, each falling through when its tests miss.
   */
  function InferFromTransports(transports: Option<seq<string>>, t: TransportTests, touchPoints: int): Option<Os>
  {
    match transports
    case None => None
    case Some(ts) =>
      var internal :=
        if "internal" !in ts then None
        else if t.iphoneLike then (if t.ipad then Some(IpadOs) else Some(Ios))
        else if t.mac && touchPoints == 0 then Some(MacOs)
        else if t.windows then Some(Windows)
        else if t.android then Some(Android)
        else None;
      var hybrid :=
        if "hybrid" !in ts then None
        else if t.android then Some(Android)
        else if t.windows then Some(Windows)
        else None;
      var usb :=
        if "usb" !in ts then None
        else if t.windows then Some(Windows)
        else if t.mac then Some(MacOs)
        else if t.linux then Some(Linux)
        else None;
      var radio :=
        if "nfc" !in ts && "ble" !in ts then None
        else if t.android then Some(Android)
        else if t.iphoneOrIpad then (if t.ipad then Some(IpadOs) else Some(Ios))
        else None;
      Or(internal, Or(hybrid, Or(usb, radio)))
  }

  /**
   * Transports outside the four known kinds infer nothing; a hybrid-only
   * authenticator names Android or Windows, and a USB-only one a desktop system.
   */
  lemma TransportInferenceRanges(ts: seq<string>, t: TransportTests, touchPoints: int)
    ensures "internal" !in ts && "hybrid" !in ts && "usb" !in ts && "nfc" !in ts && "ble" !in ts
            ==> InferFromTransports(Some(ts), t, touchPoints) == None
    ensures ts == ["hybrid"] && InferFromTransports(Some(ts), t, touchPoints).Some?
            ==> InferFromTransports(Some(ts), t, touchPoints).value in {Android, Windows}
    ensures ts == ["usb"] && InferFromTransports(Some(ts), t, touchPoints).Some?
            ==> InferFromTransports(Some(ts), t, touchPoints).value in {Windows, MacOs, Linux}
  {
  }

  /** An internal authenticator on an iPhone/iPad/iPod user agent decides the answer before any other transport. */
  lemma InternalAppleDecides(ts: seq<string>, t: TransportTests, touchPoints: int)
    requires "internal" in ts && t.iphoneLike
    ensures InferFromTransports(Some(ts), t, touchPoints) == if t.ipad then Some(IpadOs) else Some(Ios)
  {
  }

  /**
   * `detectPasskeyCapabilities().osFromCertificate`: the support inference,
   * and, when that finds nothing on a device with a platform authenticator,
   * the inference from a credential's transports (`credential` is `None`
   * when creation failed or timed out, which retries the support inference).
   * Without the WebAuthn API the probe reports nothing supported.
   */
  function PasskeyOs(res: WebAuthnSupport, userAgent: string, platform: string, touchPoints: int,
                     credential: Option<seq<string>>): Option<Os>
  {
    var first := InferFromSupport(res, AuthnTestsOf(userAgent, platform), touchPoints);
    if first.None? && res.platformAuthenticator then
      match credential
      case Some(ts) => InferFromTransports(Some(ts), TransportTestsOf(userAgent), touchPoints)
      case None => InferFromSupport(res, AuthnTestsOf(userAgent, platform), touchPoints)
    else first
  }

  /** The credential is consulted only when the support inference is silent on a device with a platform authenticator. */
  lemma PasskeyCredentialOnlyAsFallback(res: WebAuthnSupport, userAgent: string, platform: string, touchPoints: int,
                                        credential: Option<seq<string>>)
    ensures var first := InferFromSupport(res, AuthnTestsOf(userAgent, platform), touchPoints);
            first.Some? || !res.platformAuthenticator || credential.None? ==>
              PasskeyOs(res, userAgent, platform, touchPoints, credential) == first
  {
  }

  // ---------------------------------------------------------------------------
  // shouldDisableCanvas

  /**
   * `shouldDisableCanvas()` (the later of its two declarations): the page
   * path plus query, the detected system if any, whether advanced detection
   * ran, and the `isApplePlatform()` answer.
   */
  function ShouldDisableCanvas(path: string, detected: Option<Os>, advancedMode: bool, applePlatform: bool): bool
  {
    if Contains(path, "/disablecanvas") || Contains(path, "disablecanvas") then true
    else if advancedMode && detected.Some? then IsApple(detected.value)
    else if detected.Some? && IsApple(detected.value) then true
    else if detected.None? && applePlatform then true
    else false
  }

  /** The `/disablecanvas` test is subsumed by the bare `disablecanvas` test. */
  lemma DisablePathTest(path: string)
    ensures Contains(path, "/disablecanvas") || Contains(path, "disablecanvas") <==> Contains(path, "disablecanvas")
  {
    if Contains(path, "/disablecanvas") {
      assert "/" + "disablecanvas" == "/disablecanvas";
      ContainsSuffixPart(path, "/", "disablecanvas");
    }
  }

  /**
   * Canvas rendering is off exactly when the path asks for it, or the
   * detected system is an Apple one, or nothing was detected and the
   * platform looks like Apple's. Whether advanced detection ran never matters.
   */
  lemma CanvasDecision(path: string, detected: Option<Os>, advancedMode: bool, applePlatform: bool)
    ensures ShouldDisableCanvas(path, detected, advancedMode, applePlatform)
            <==> Contains(path, "disablecanvas")
                 || (detected.Some? && IsApple(detected.value))
                 || (detected.None? && applePlatform)
    ensures ShouldDisableCanvas(path, detected, advancedMode, applePlatform)
            == ShouldDisableCanvas(path, detected, !advancedMode, applePlatform)
  {
    DisablePathTest(path);
  }
}
