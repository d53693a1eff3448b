/**
 * The weighted-vote scoring engine of `detect()`: the per-run score table,
 * the `vote` and `mark` closures that update it and log every check, and the
 * fixed rule table that turns the collected browser signals into votes.
 */
module Scoring {
  import opened Options
  import opened Strings
  import opened Platforms

  datatype AppleCheck = WebkitMobileCss | ApplePay | SafariPush | IosPermission | Standalone
  datatype AndroidCheck = WebNfc | RelatedApps
  datatype DesktopCheck = WebSerial | WebHid | WebUsb
  datatype GlCheck = GlApple | GlDirect3d | GlMesa | GlDisplayStack | GlMobileGpu | GlAngleMetal | GlUnavailable

  /**
   * The checks the engine logs, standing for the titles of the audit records
   * and grouped by the part of `detect()` that runs them.
   */
  datatype Rule =
    | PointerRule(touch: bool)          // touch / coarse pointer, or fine pointer
    | AppleRule(apple: AppleCheck)
    | AndroidRule(android: AndroidCheck)
    | DesktopRule(desktop: DesktopCheck)
    | SizeRule(large: bool)             // short side >= 600 CSS pixels, or below
    | GlRule(gl: GlCheck)
    | TieRule(resolved: bool)           // the user-agent tie-break record
    | SnapshotRule                      // the closing signal snapshot

  /** One audit record: whether the check fired, its weight, and the systems it names. */
  datatype Step = Step(ok: bool, rule: Rule, weight: nat, targets: seq<Os>)

  /** How often `o` occurs in a target list. */
  function Count(targets: seq<Os>, o: Os): nat
  {
    multiset(targets)[o]
  }

  /** Extending a target list by one system adds one occurrence of that system only. */
  lemma CountPrefixStep(targets: seq<Os>, i: nat, o: Os)
    requires i < |targets|
    ensures Count(targets[..i + 1], o) == Count(targets[..i], o) + if targets[i] == o then 1 else 0
  {
    assert targets[..i + 1] == targets[..i] + [targets[i]];
  }

  lemma MulAddOne(w: nat, c: nat)
    ensures w * (c + 1) == w * c + w
  {
  }

  /** What one record adds to the score of `o`: its weight per mention when it fired. */
  function Gain(st: Step, o: Os): nat
  {
    if st.ok then st.weight * Count(st.targets, o) else 0
  }

  /** The score of `o` implied by an audit log: the sum of the gains of its records. */
  function Score(log: seq<Step>, o: Os): nat
  {
    if log == [] then 0 else Score(log[..|log| - 1], o) + Gain(log[|log| - 1], o)
  }

  /** Scores add up over concatenated logs. */
  lemma {:induction false} ScoreAppend(a: seq<Step>, b: seq<Step>, o: Os)
    ensures Score(a + b, o) == Score(a, o) + Score(b, o)
    decreases |b|
  {
    if b != [] {
      assert (a + b)[..|a + b| - 1] == a + b[..|b| - 1];
      ScoreAppend(a, b[..|b| - 1], o);
    } else {
      assert a + b == a;
    }
  }

  /** Appending one record adds its gain. */
  lemma ScoreSnoc(log: seq<Step>, st: Step)
    ensures forall o: Os :: Score(log + [st], o) == Score(log, o) + Gain(st, o)
  {
    assert (log + [st])[..|log|] == log;
  }

  /** The score of a one-record log is that record's gain. */
  lemma ScoreOne(st: Step, o: Os)
    ensures Score([st], o) == Gain(st, o)
  {
    assert [st][..0] == [];
  }

  /** The score table plus the audit log of one detection run. */
  class ScoreBoard {
    var scores: map<Os, int>
    var log: seq<Step>

    /** Every system has an entry, and it equals what the log implies. */
    ghost predicate Valid()
      reads this
    {
      forall o: Os :: o in scores && scores[o] == Score(log, o)
    }

    /** `{ android:0, ios:0, ipados:0, macos:0, windows:0, linux:0 }` with an empty log. */
    constructor ()
      ensures Valid() && log == []
      ensures forall o: Os :: scores[o] == 0
    {
      scores := map[Android := 0, Ios := 0, IpadOs := 0, MacOs := 0, Windows := 0, Linux := 0];
      log := [];
      new;
      forall o: Os ensures o in scores && scores[o] == 0 {
        match o
        case Android => case Ios => case IpadOs => case MacOs => case Windows => case Linux =>
      }
    }

    /**
     * `vote(targets, weight, title, detail, ok)`: when `ok`, every listed
     * target gains `weight` once per mention; either way one record is appended.
     */
    method Vote(targets: seq<Os>, weight: nat, rule: Rule, ok: bool)
      requires Valid()
      modifies this
      ensures Valid()
      ensures log == old(log) + [Step(ok, rule, weight, targets)]
      ensures forall o: Os :: scores[o] == old(scores[o]) + (if ok then weight * Count(targets, o) else 0)
    {
      ghost var before := scores;
      if ok {
        var i := 0;
        while i < |targets|
          invariant 0 <= i <= |targets|
          invariant log == old(log)
          invariant forall o: Os :: o in scores && scores[o] == before[o] + weight * Count(targets[..i], o)
        {
          var t := targets[i];
          scores := scores[t := scores[t] + weight];
          forall o: Os
            ensures o in scores && scores[o] == before[o] + weight * Count(targets[..i + 1], o)
          {
            CountPrefixStep(targets, i, o);
            MulAddOne(weight, Count(targets[..i], o));
          }
          i := i + 1;
        }
        assert targets[..i] == targets;
      }
      ghost var prior := log;
      log := log + [Step(ok, rule, weight, targets)];
      ScoreSnoc(prior, Step(ok, rule, weight, targets));
    }

    /**
     * `mark(title, detail, false, weight, targets)`: logs a check that did not
     * fire; every call site passes `ok = false`, so no score changes.
     */
    method Mark(rule: Rule, weight: nat, targets: seq<Os>)
      requires Valid()
      modifies this
      ensures Valid()
      ensures log == old(log) + [Step(false, rule, weight, targets)]
      ensures scores == old(scores)
    {
      ghost var prior := log;
      log := log + [Step(false, rule, weight, targets)];
      ScoreSnoc(prior, Step(false, rule, weight, targets));
    }

    /** A direct `addStep` with weight 0 (the tie-break and snapshot records). */
    method Note(ok: bool, rule: Rule, targets: seq<Os>)
      requires Valid()
      modifies this
      ensures Valid()
      ensures log == old(log) + [Step(ok, rule, 0, targets)]
      ensures scores == old(scores)
    {
      ghost var prior := log;
      log := log + [Step(ok, rule, 0, targets)];
      ScoreSnoc(prior, Step(ok, rule, 0, targets));
    }
  }

  /** A target list without repeats counts each listed system once. */
  lemma {:induction false} CountDistinct(targets: seq<Os>, o: Os)
    requires forall i, j :: 0 <= i < j < |targets| ==> targets[i] != targets[j]
    ensures Count(targets, o) == if o in targets then 1 else 0
  {
    if targets != [] {
      var init := targets[..|targets| - 1];
      var last := targets[|targets| - 1];
      assert targets == init + [last];
      assert multiset(targets) == multiset(init) + multiset{last};
      CountDistinct(init, o);
      assert o in targets <==> o in init || last == o;
      if last == o {
        assert o !in init;
      }
    }
  }

  /** `getWebGLInfo()` when a context exists; missing strings are already `''`. */
  datatype GlInfo = GlInfo(vendor: string, renderer: string)

  /** The signal probes of `detect()`, collected before scoring. */
  datatype Signals = Signals(
    touchPoints: int,                 // navigator.maxTouchPoints || 0
    touchStartInWindow: bool,         // 'ontouchstart' in window
    pointerCoarse: bool,              // (pointer:coarse)
    pointerFine: bool,                // (pointer:fine)
    hover: bool,                      // (hover:hover)
    webkitTouchCallout: bool,         // CSS.supports('-webkit-touch-callout','none')
    webkitOverflowScrolling: bool,    // CSS.supports('-webkit-overflow-scrolling','touch')
    applePay: bool,                   // 'ApplePaySession' in window
    safariPush: bool,                 // window.safari.pushNotification
    iosPermissionShape: bool,         // DeviceMotionEvent.requestPermission is a function
    hasStandalone: bool,              // 'standalone' in navigator
    webNfc: bool,                     // checkNFCCapabilities().hasAPI
    relatedApps: bool,                // 'getInstalledRelatedApps' in navigator
    webSerial: bool,                  // 'serial' in navigator
    webHid: bool,                     // 'hid' in navigator
    webUsb: bool,                     // 'usb' in navigator
    shortSideAtLeast600: bool,        // min(screen.width, screen.height) / dpr >= 600
    gl: Option<GlInfo>)

  /** `hasRealTouch || isPrimaryTouch`. */
  predicate IsTouchy(s: Signals)
  {
    (s.touchPoints > 0 && s.touchStartInWindow) || (s.pointerCoarse && !s.hover)
  }

  /** Either WebKit mobile CSS feature. */
  predicate WebkitMobileCssOf(s: Signals)
  {
    s.webkitTouchCallout || s.webkitOverflowScrolling
  }

  /** The mobile-GPU test as the source writes it: `'Maleoon'` against a lower-cased renderer. */
  predicate MobileGpuAsWritten(r: string)
  {
    Contains(r, "adreno") || Contains(r, "mali") || Contains(r, "Maleoon") || Contains(r, "powervr")
  }

  /** The mobile-GPU test as intended: every GPU name in lower case, like the renderer. */
  predicate MobileGpu(r: string)
  {
    Contains(r, "adreno") || Contains(r, "mali") || Contains(r, "maleoon") || Contains(r, "powervr")
  }

  predicate GlAppleOf(v: string, r: string) { Contains(v, "apple") || Contains(r, "apple") }
  predicate GlDirect3dOf(r: string) { Contains(r, "direct3d") || Contains(r, "d3d") }
  predicate GlMesaOf(v: string, r: string)
  {
    Contains(v, "mesa") || Contains(r, "mesa") || Contains(r, "x.org") || Contains(r, "llvmpipe")
  }
  predicate GlDisplayStackOf(v: string, r: string)
  {
    Contains(v, "x11") || Contains(r, "x11") || Contains(v, "wayland") || Contains(r, "wayland")
  }
  predicate GlAngleMetalOf(r: string) { Contains(r, "angle") && Contains(r, "metal") }

  /** Which graphics-stack rules hold for one WebGL vendor/renderer pair. */
  datatype GlFlags = GlFlags(apple: bool, direct3d: bool, mesa: bool, displayStack: bool, mobileGpu: bool, angleMetal: bool)

  /** The renderer tests over the lower-cased vendor and renderer strings, the mobile-GPU test as written. */
  function GlFlagsOf(g: GlInfo, touchy: bool): GlFlags
  {
    var v := Lower(g.vendor);
    var r := Lower(g.renderer);
    GlFlags(GlAppleOf(v, r), GlDirect3dOf(r), GlMesaOf(v, r), GlDisplayStackOf(v, r), MobileGpuAsWritten(r) && touchy, GlAngleMetalOf(r))
  }

  /** The same tests with the mobile-GPU test as intended. */
  function GlFlagsIntended(g: GlInfo, touchy: bool): GlFlags
  {
    GlFlagsOf(g, touchy).(mobileGpu := MobileGpu(Lower(g.renderer)) && touchy)
  }

  /** The graphics-stack test outcomes of a run: none when no WebGL context exists. */
  function GlOf(s: Signals): Option<GlFlags>
  {
    match s.gl
    case None => None
    case Some(g) => Some(GlFlagsOf(g, IsTouchy(s)))
  }

  /** A vote that is cast only when its signal is present, with no record otherwise. */
  function VoteIf(c: bool, rule: Rule, targets: seq<Os>, weight: nat): seq<Step>
  {
    if c then [Step(true, rule, weight, targets)] else []
  }

  /** A vote when the signal is present, a `mark` with the same weight and targets when not. */
  function VoteOrMark(c: bool, rule: Rule, targets: seq<Os>, weight: nat): seq<Step>
  {
    [Step(c, rule, weight, targets)]
  }

  /** The mobile family `[android, ios, ipados]` and the desktop family `[macos, windows, linux]`. */
  function PointerFamily(touch: bool): seq<Os>
  {
    if touch then [Android, Ios, IpadOs] else [MacOs, Windows, Linux]
  }

  /** The base pointer vote: the mobile family when touch-primary, the desktop family otherwise. */
  function PointerSteps(s: Signals): seq<Step>
  {
    [Step(true, PointerRule(IsTouchy(s)), 2, PointerFamily(IsTouchy(s)))]
  }

  function AppleSteps(s: Signals): seq<Step>
  {
    VoteOrMark(WebkitMobileCssOf(s), AppleRule(WebkitMobileCss), [Ios, IpadOs], 5)
    + VoteOrMark(s.applePay, AppleRule(ApplePay), [Ios, IpadOs, MacOs], 4)
    + VoteOrMark(s.safariPush, AppleRule(SafariPush), [MacOs], 4)
    + VoteOrMark(s.iosPermissionShape, AppleRule(IosPermission), [Ios, IpadOs], 6)
    + VoteIf(s.hasStandalone, AppleRule(Standalone), [Ios, IpadOs], 2)
  }

  function AndroidSteps(s: Signals): seq<Step>
  {
    VoteOrMark(s.webNfc, AndroidRule(WebNfc), [Android], 4)
    + VoteIf(s.relatedApps, AndroidRule(RelatedApps), [Android], 3)
  }

  function DesktopSteps(s: Signals): seq<Step>
  {
    VoteIf(s.webSerial, DesktopRule(WebSerial), [Windows, MacOs, Linux], 4)
    + VoteIf(s.webHid, DesktopRule(WebHid), [Windows, MacOs, Linux], 2)
    + VoteIf(s.webUsb, DesktopRule(WebUsb), [Windows, MacOs, Linux], 1)
  }

  /** Whether the Apple phone/tablet size split applies. */
  predicate AppleMobileBranch(s: Signals)
  {
    (WebkitMobileCssOf(s) || s.iosPermissionShape) && IsTouchy(s)
  }

  /** The Apple size split: a weight-5 vote for iPadOS or for iOS, inside the Apple mobile branch only. */
  function SizeSteps(s: Signals): seq<Step>
  {
    if AppleMobileBranch(s) then
      [Step(true, SizeRule(s.shortSideAtLeast600), 5, if s.shortSideAtLeast600 then [IpadOs] else [Ios])]
    else []
  }

  /** The six graphics votes, each cast only when its test holds. */
  function GlVotes(f: GlFlags): seq<Step>
  {
    VoteIf(f.apple, GlRule(GlApple), [MacOs, Ios, IpadOs], 6)
    + VoteIf(f.direct3d, GlRule(GlDirect3d), [Windows], 6)
    + VoteIf(f.mesa, GlRule(GlMesa), [Linux], 5)
    + VoteIf(f.displayStack, GlRule(GlDisplayStack), [Linux], 4)
    + VoteIf(f.mobileGpu, GlRule(GlMobileGpu), [Android], 4)
    + VoteIf(f.angleMetal, GlRule(GlAngleMetal), [MacOs], 4)
  }

  /** The graphics part: the six renderer rules, or one `mark` when no context is available. */
  function GlSteps(gl: Option<GlFlags>): seq<Step>
  {
    match gl
    case None => [Step(false, GlRule(GlUnavailable), 0, [])]
    case Some(f) => GlVotes(f)
  }

  /**
   * The rule table of `detect()`, in the order the checks run, over the
   * signals and the outcome `gl` of the graphics-stack tests.
   */
  function Table(s: Signals, gl: Option<GlFlags>): seq<Step>
  {
    PointerSteps(s) + AppleSteps(s) + AndroidSteps(s) + DesktopSteps(s) + SizeSteps(s) + GlSteps(gl)
  }

  /** The whole rule table of one run. */
  function BaseSteps(s: Signals): seq<Step>
  {
    Table(s, GlOf(s))
  }

  // ---------------------------------------------------------------------------
  // Which parts of the table leave records

  datatype Part = PointerPart | ApplePart | AndroidPart | DesktopPart | SizePart | GlPart | TiePart | SnapshotPart

  function PartOf(r: Rule): Part
  {
    match r
    case PointerRule(_) => PointerPart
    case AppleRule(_) => ApplePart
    case AndroidRule(_) => AndroidPart
    case DesktopRule(_) => DesktopPart
    case SizeRule(_) => SizePart
    case GlRule(_) => GlPart
    case TieRule(_) => TiePart
    case SnapshotRule => SnapshotPart
  }

  /** The part of every record of a log, in order. */
  function PartsOf(log: seq<Step>): (r: seq<Part>)
    ensures |r| == |log|
    ensures forall i :: 0 <= i < |log| ==> r[i] == PartOf(log[i].rule)
  {
    seq(|log|, i requires 0 <= i < |log| => PartOf(log[i].rule))
  }

  /** How many records of a log come from one part of the table. */
  function PartCount(log: seq<Step>, p: Part): nat
  {
    multiset(PartsOf(log))[p]
  }

  lemma PartCountAppend(a: seq<Step>, b: seq<Step>, p: Part)
    ensures PartCount(a + b, p) == PartCount(a, p) + PartCount(b, p)
  {
    assert PartsOf(a + b) == PartsOf(a) + PartsOf(b);
  }

  /** Every record of `log` belongs to part `p`. */
  predicate AllIn(log: seq<Step>, p: Part)
  {
    forall i :: 0 <= i < |log| ==> PartOf(log[i].rule) == p
  }

  /** A log whose records all belong to `p` has all its records counted for `p` and none for any other part. */
  lemma {:induction false} AllInCount(log: seq<Step>, p: Part, q: Part)
    requires AllIn(log, p)
    ensures PartCount(log, q) == if q == p then |log| else 0
  {
    if log != [] {
      var init := log[..|log| - 1];
      assert log == init + [log[|log| - 1]];
      PartCountAppend(init, [log[|log| - 1]], q);
      AllInCount(init, p, q);
      assert PartsOf([log[|log| - 1]]) == [PartOf(log[|log| - 1].rule)];
    }
  }

  lemma VoteIfIn(c: bool, rule: Rule, targets: seq<Os>, w: nat)
    ensures AllIn(VoteIf(c, rule, targets, w), PartOf(rule))
  {
  }

  lemma AllInAppend(a: seq<Step>, b: seq<Step>, p: Part)
    requires AllIn(a, p) && AllIn(b, p)
    ensures AllIn(a + b, p)
  {
  }

  lemma AppleIn(s: Signals)
    ensures AllIn(AppleSteps(s), ApplePart)
  {
    var a := VoteOrMark(WebkitMobileCssOf(s), AppleRule(WebkitMobileCss), [Ios, IpadOs], 5);
    var b := VoteOrMark(s.applePay, AppleRule(ApplePay), [Ios, IpadOs, MacOs], 4);
    var c := VoteOrMark(s.safariPush, AppleRule(SafariPush), [MacOs], 4);
    var d := VoteOrMark(s.iosPermissionShape, AppleRule(IosPermission), [Ios, IpadOs], 6);
    var e := VoteIf(s.hasStandalone, AppleRule(Standalone), [Ios, IpadOs], 2);
    VoteIfIn(s.hasStandalone, AppleRule(Standalone), [Ios, IpadOs], 2);
    AllInAppend(a, b, ApplePart);
    AllInAppend(a + b, c, ApplePart);
    AllInAppend(a + b + c, d, ApplePart);
    AllInAppend(a + b + c + d, e, ApplePart);
  }

  lemma AndroidIn(s: Signals)
    ensures AllIn(AndroidSteps(s), AndroidPart)
  {
    VoteIfIn(s.relatedApps, AndroidRule(RelatedApps), [Android], 3);
    AllInAppend(VoteOrMark(s.webNfc, AndroidRule(WebNfc), [Android], 4),
                VoteIf(s.relatedApps, AndroidRule(RelatedApps), [Android], 3), AndroidPart);
  }

  lemma DesktopIn(s: Signals)
    ensures AllIn(DesktopSteps(s), DesktopPart)
  {
    var a := VoteIf(s.webSerial, DesktopRule(WebSerial), [Windows, MacOs, Linux], 4);
    var b := VoteIf(s.webHid, DesktopRule(WebHid), [Windows, MacOs, Linux], 2);
    var c := VoteIf(s.webUsb, DesktopRule(WebUsb), [Windows, MacOs, Linux], 1);
    VoteIfIn(s.webSerial, DesktopRule(WebSerial), [Windows, MacOs, Linux], 4);
    VoteIfIn(s.webHid, DesktopRule(WebHid), [Windows, MacOs, Linux], 2);
    VoteIfIn(s.webUsb, DesktopRule(WebUsb), [Windows, MacOs, Linux], 1);
    AllInAppend(a, b, DesktopPart);
    AllInAppend(a + b, c, DesktopPart);
  }

  lemma GlIn(gl: Option<GlFlags>)
    ensures AllIn(GlSteps(gl), GlPart)
  {
    match gl
    case None =>
    case Some(f) =>
      var a := VoteIf(f.apple, GlRule(GlApple), [MacOs, Ios, IpadOs], 6);
      var b := VoteIf(f.direct3d, GlRule(GlDirect3d), [Windows], 6);
      var c := VoteIf(f.mesa, GlRule(GlMesa), [Linux], 5);
      var d := VoteIf(f.displayStack, GlRule(GlDisplayStack), [Linux], 4);
      var e := VoteIf(f.mobileGpu, GlRule(GlMobileGpu), [Android], 4);
      var g := VoteIf(f.angleMetal, GlRule(GlAngleMetal), [MacOs], 4);
      VoteIfIn(f.apple, GlRule(GlApple), [MacOs, Ios, IpadOs], 6);
      VoteIfIn(f.direct3d, GlRule(GlDirect3d), [Windows], 6);
      VoteIfIn(f.mesa, GlRule(GlMesa), [Linux], 5);
      VoteIfIn(f.displayStack, GlRule(GlDisplayStack), [Linux], 4);
      VoteIfIn(f.mobileGpu, GlRule(GlMobileGpu), [Android], 4);
      VoteIfIn(f.angleMetal, GlRule(GlAngleMetal), [MacOs], 4);
      AllInAppend(a, b, GlPart);
      AllInAppend(a + b, c, GlPart);
      AllInAppend(a + b + c, d, GlPart);
      AllInAppend(a + b + c + d, e, GlPart);
      AllInAppend(a + b + c + d + e, g, GlPart);
  }

  /** The pointer part records one pointer check and the size part only size checks. */
  lemma PointerAndSizeCounts(s: Signals, p: Part)
    ensures PartCount(PointerSteps(s), p) == if p == PointerPart then 1 else 0
    ensures PartCount(SizeSteps(s), p) == if p == SizePart then |SizeSteps(s)| else 0
  {
    AllInCount(PointerSteps(s), PointerPart, p);
    AllInCount(SizeSteps(s), SizePart, p);
  }

  /** Only the pointer part of the table records pointer checks, and a single one. */
  lemma PointerPartCount(s: Signals, gl: Option<GlFlags>)
    ensures PartCount(Table(s, gl), PointerPart) == 1
  {
    TablePartSplit(s, gl, PointerPart);
    OtherPartsCount(s, gl, PointerPart);
    PointerAndSizeCounts(s, PointerPart);
  }

  /** Only the size part of the table records size-split checks. */
  lemma SizePartCount(s: Signals, gl: Option<GlFlags>)
    ensures PartCount(Table(s, gl), SizePart) == |SizeSteps(s)|
  {
    TablePartSplit(s, gl, SizePart);
    OtherPartsCount(s, gl, SizePart);
    PointerAndSizeCounts(s, SizePart);
  }

  /** The Apple, Android, desktop and graphics parts record none of the pointer or size checks. */
  lemma OtherPartsCount(s: Signals, gl: Option<GlFlags>, p: Part)
    requires p == PointerPart || p == SizePart
    ensures PartCount(AppleSteps(s), p) == 0 && PartCount(AndroidSteps(s), p) == 0
    ensures PartCount(DesktopSteps(s), p) == 0 && PartCount(GlSteps(gl), p) == 0
  {
    AppleIn(s);
    AndroidIn(s);
    DesktopIn(s);
    GlIn(gl);
    AllInCount(AppleSteps(s), ApplePart, p);
    AllInCount(AndroidSteps(s), AndroidPart, p);
    AllInCount(DesktopSteps(s), DesktopPart, p);
    AllInCount(GlSteps(gl), GlPart, p);
  }

  lemma TablePartSplit(s: Signals, gl: Option<GlFlags>, p: Part)
    ensures PartCount(Table(s, gl), p)
            == PartCount(PointerSteps(s), p) + PartCount(AppleSteps(s), p) + PartCount(AndroidSteps(s), p)
             + PartCount(DesktopSteps(s), p) + PartCount(SizeSteps(s), p) + PartCount(GlSteps(gl), p)
  {
    var ps, a, n, d, z, g := PointerSteps(s), AppleSteps(s), AndroidSteps(s), DesktopSteps(s), SizeSteps(s), GlSteps(gl);
    PartCountAppend(ps + a + n + d + z, g, p);
    PartCountAppend(ps + a + n + d, z, p);
    PartCountAppend(ps + a + n, d, p);
    PartCountAppend(ps + a, n, p);
    PartCountAppend(ps, a, p);
  }

  /**
   * Exactly one of the two base pointer votes is cast and it comes first,
   * with weight 2: to the mobile family when the device is touch-primary, to
   * the desktop family otherwise.
   */
  lemma PointerVoteExactlyOne(s: Signals, gl: Option<GlFlags>)
    ensures PartCount(Table(s, gl), PointerPart) == 1
    ensures Table(s, gl)[0] == Step(true, PointerRule(IsTouchy(s)), 2, PointerFamily(IsTouchy(s)))
    ensures IsTouchy(s) ==> Table(s, gl)[0].targets == [Android, Ios, IpadOs]
    ensures !IsTouchy(s) ==> Table(s, gl)[0].targets == [MacOs, Windows, Linux]
  {
    PointerPartCount(s, gl);
  }

  /** A score of the rule table, part by part. */
  lemma TableScore(s: Signals, gl: Option<GlFlags>, o: Os)
    ensures Score(Table(s, gl), o)
      == Score(PointerSteps(s), o) + Score(AppleSteps(s), o) + Score(AndroidSteps(s), o)
       + Score(DesktopSteps(s), o) + Score(SizeSteps(s), o) + Score(GlSteps(gl), o)
  {
    var p, a, n, d, z, g := PointerSteps(s), AppleSteps(s), AndroidSteps(s), DesktopSteps(s), SizeSteps(s), GlSteps(gl);
    ScoreAppend(p + a + n + d + z, g, o);
    ScoreAppend(p + a + n + d, z, o);
    ScoreAppend(p + a + n, d, o);
    ScoreAppend(p + a, n, o);
    ScoreAppend(p, a, o);
  }

  /**
   * The Apple size split leaves exactly one record in the Apple mobile branch
   * and none outside it; that record is a weight-5 vote for iPadOS when the
   * short side is at least 600 CSS pixels and for iOS otherwise, and it adds
   * nothing to any other system.
   */
  lemma AppleSizeSplit(s: Signals, gl: Option<GlFlags>)
    ensures PartCount(Table(s, gl), SizePart) == if AppleMobileBranch(s) then 1 else 0
    ensures Score(SizeSteps(s), IpadOs) == if AppleMobileBranch(s) && s.shortSideAtLeast600 then 5 else 0
    ensures Score(SizeSteps(s), Ios) == if AppleMobileBranch(s) && !s.shortSideAtLeast600 then 5 else 0
    ensures forall o: Os :: o != Ios && o != IpadOs ==> Score(SizeSteps(s), o) == 0
  {
    SizePartCount(s, gl);
    var z := SizeSteps(s);
    if z != [] {
      forall o: Os ensures Score(z, o) == Gain(z[0], o) {
        ScoreOne(z[0], o);
      }
    }
  }

  /** The pointer vote alone gives every system of the chosen family at least 2 points. */
  lemma PointerFamilyScoresAtLeastTwo(s: Signals, gl: Option<GlFlags>, o: Os)
    ensures o in PointerFamily(IsTouchy(s)) ==> Score(Table(s, gl), o) >= 2
  {
    TableScore(s, gl, o);
    ScoreOne(PointerSteps(s)[0], o);
    if o in PointerFamily(IsTouchy(s)) {
      assert Count(PointerFamily(IsTouchy(s)), o) >= 1;
    }
  }

  // ---------------------------------------------------------------------------
  // Conservation: no vote is dropped or double-counted

  /** The sum of the six scores a log implies. */
  function Total(log: seq<Step>): nat
  {
    Score(log, Android) + Score(log, Ios) + Score(log, IpadOs) + Score(log, MacOs) + Score(log, Windows) + Score(log, Linux)
  }

  /** The weight a log casts: weight times number of targets, over every record that fired. */
  function CastWeight(log: seq<Step>): nat
  {
    if log == [] then 0
    else CastWeight(log[..|log| - 1]) + (var st := log[|log| - 1]; if st.ok then st.weight * |st.targets| else 0)
  }

  /** Every target list splits into its six per-system counts. */
  lemma {:induction false} CountsAddUp(targets: seq<Os>)
    ensures Count(targets, Android) + Count(targets, Ios) + Count(targets, IpadOs) + Count(targets, MacOs)
            + Count(targets, Windows) + Count(targets, Linux) == |targets|
  {
    if targets != [] {
      var init := targets[..|targets| - 1];
      var last := targets[|targets| - 1];
      assert targets == init + [last];
      assert multiset(targets) == multiset(init) + multiset{last};
      CountsAddUp(init);
      match last
      case Android => case Ios => case IpadOs => case MacOs => case Windows => case Linux =>
    }
  }

  /** The scores of a log add up to the weight it casts. */
  lemma {:induction false} ScoreConservation(log: seq<Step>)
    ensures Total(log) == CastWeight(log)
  {
    if log != [] {
      ScoreConservation(log[..|log| - 1]);
      var st := log[|log| - 1];
      CountsAddUp(st.targets);
      var w := st.weight;
      var t := st.targets;
      assert w * Count(t, Android) + w * Count(t, Ios) + w * Count(t, IpadOs) + w * Count(t, MacOs)
             + w * Count(t, Windows) + w * Count(t, Linux)
             == w * (Count(t, Android) + Count(t, Ios) + Count(t, IpadOs) + Count(t, MacOs)
                     + Count(t, Windows) + Count(t, Linux));
    }
  }

  // ---------------------------------------------------------------------------
  // The mobile-GPU finding

  /** Lower-cased text has no upper-case `M`, so the source's `'Maleoon'` test never matches. */
  lemma MaleoonNeverMatches(renderer: string)
    ensures !Contains(Lower(renderer), "Maleoon")
    ensures MobileGpuAsWritten(Lower(renderer))
            <==> (var r := Lower(renderer); Contains(r, "adreno") || Contains(r, "mali") || Contains(r, "powervr"))
  {
    var r := Lower(renderer);
    assert 'M' !in r by {
      forall i | 0 <= i < |r| ensures r[i] != 'M' {
        assert r[i] == LowerChar(renderer[i]);
      }
    }
    MissingCharNotContained(r, "Maleoon", 'M');
  }

  /** A log in three pieces scores the sum of the pieces. */
  lemma ScoreSplit3(a: seq<Step>, m: seq<Step>, z: seq<Step>, o: Os)
    ensures Score(a + m + z, o) == Score(a, o) + Score(m, o) + Score(z, o)
  {
    ScoreAppend(a + m, z, o);
    ScoreAppend(a, m, o);
  }

  /** The graphics votes cast before the mobile-GPU vote, and the one after it. */
  function GlBefore(f: GlFlags): seq<Step>
  {
    VoteIf(f.apple, GlRule(GlApple), [MacOs, Ios, IpadOs], 6)
    + VoteIf(f.direct3d, GlRule(GlDirect3d), [Windows], 6)
    + VoteIf(f.mesa, GlRule(GlMesa), [Linux], 5)
    + VoteIf(f.displayStack, GlRule(GlDisplayStack), [Linux], 4)
  }

  function GlAfter(f: GlFlags): seq<Step>
  {
    VoteIf(f.angleMetal, GlRule(GlAngleMetal), [MacOs], 4)
  }

  lemma GlVotesAroundGpu(f: GlFlags)
    ensures GlVotes(f) == GlBefore(f) + VoteIf(f.mobileGpu, GlRule(GlMobileGpu), [Android], 4) + GlAfter(f)
  {
  }

  /** Setting the mobile-GPU test to `b` changes only Android's graphics points, by 4 per change of the test. */
  lemma GpuVoteScore(f: GlFlags, b: bool, o: Os)
    ensures Score(GlVotes(f.(mobileGpu := b)), o) + (if f.mobileGpu && o == Android then 4 else 0)
            == Score(GlVotes(f), o) + (if b && o == Android then 4 else 0)
  {
    var f1 := f.(mobileGpu := b);
    GlVotesAroundGpu(f);
    GlVotesAroundGpu(f1);
    assert GlBefore(f1) == GlBefore(f) && GlAfter(f1) == GlAfter(f);
    ScoreSplit3(GlBefore(f), VoteIf(f.mobileGpu, GlRule(GlMobileGpu), [Android], 4), GlAfter(f), o);
    ScoreSplit3(GlBefore(f), VoteIf(b, GlRule(GlMobileGpu), [Android], 4), GlAfter(f), o);
    AndroidVoteScore(f.mobileGpu, o);
    AndroidVoteScore(b, o);
  }

  /** The mobile-GPU vote gives 4 to Android when cast and nothing otherwise. */
  lemma AndroidVoteScore(c: bool, o: Os)
    ensures Score(VoteIf(c, GlRule(GlMobileGpu), [Android], 4), o) == if c && o == Android then 4 else 0
  {
    if c {
      ScoreOne(Step(true, GlRule(GlMobileGpu), 4, [Android]), o);
      assert Count([Android], o) == if o == Android then 1 else 0;
    }
  }

  /**
   * Under the intended test, a renderer naming a Maleoon GPU in any case
   * gives Android on a touch device exactly 4 graphics points more than the
   * written test does, unless another mobile GPU name already voted; no
   * other system's points, and nothing off a touch device, change.
   */
  lemma MaleoonRendererVotesAndroid(g: GlInfo, touchy: bool, o: Os)
    requires Contains(Lower(g.renderer), "maleoon")
    ensures Score(GlVotes(GlFlagsIntended(g, touchy)), o)
            == Score(GlVotes(GlFlagsOf(g, touchy)), o)
               + (if o == Android && touchy && !MobileGpuAsWritten(Lower(g.renderer)) then 4 else 0)
  {
    var fw := GlFlagsOf(g, touchy);
    var r := Lower(g.renderer);
    assert fw.mobileGpu == (MobileGpuAsWritten(r) && touchy);
    assert MobileGpu(r);
    GpuVoteScore(fw, touchy, o);
  }

  /**
   * The concrete input that shows the discrepancy: the renderer `Maleoon 910`
   * matches the intended test and not the written one, so on a touch device
   * the written code casts no Android vote for it and the intended code
   * casts one of weight 4.
   */
  lemma MaleoonCounterexample(g: GlInfo)
    requires g.renderer == "Maleoon 910"
    ensures MobileGpu(Lower(g.renderer))
    ensures !MobileGpuAsWritten(Lower(g.renderer))
    ensures !GlFlagsOf(g, true).mobileGpu && GlFlagsIntended(g, true).mobileGpu
    ensures Score(GlVotes(GlFlagsIntended(g, true)), Android) == Score(GlVotes(GlFlagsOf(g, true)), Android) + 4
  {
    MaleoonMatchesIntended(g.renderer);
    MaleoonMissesWritten(g.renderer);
    MaleoonNeverMatches(g.renderer);
    MaleoonRendererVotesAndroid(g, true, Android);
  }

  /**
   * Over a whole run the intended test changes only the Android score, by
   * the 4 points of the Maleoon vote the written code never casts.
   */
  lemma MaleoonRunGain(s: Signals, o: Os)
    requires s.gl.Some? && Contains(Lower(s.gl.value.renderer), "maleoon")
    ensures Score(Table(s, Some(GlFlagsIntended(s.gl.value, IsTouchy(s)))), o)
            == Score(BaseSteps(s), o)
               + (if o == Android && IsTouchy(s) && !MobileGpuAsWritten(Lower(s.gl.value.renderer)) then 4 else 0)
  {
    var g := s.gl.value;
    assert BaseSteps(s) == Table(s, Some(GlFlagsOf(g, IsTouchy(s))));
    TableGlScore(s, GlFlagsIntended(g, IsTouchy(s)), o);
    TableGlScore(s, GlFlagsOf(g, IsTouchy(s)), o);
    MaleoonRendererVotesAndroid(g, IsTouchy(s), o);
  }

  /** With a WebGL context the table scores what it scores without one, plus the graphics votes. */
  lemma TableGlScore(s: Signals, f: GlFlags, o: Os)
    ensures Score(Table(s, Some(f)), o) == Score(Table(s, None), o) + Score(GlVotes(f), o)
  {
    var rest := PointerSteps(s) + AppleSteps(s) + AndroidSteps(s) + DesktopSteps(s) + SizeSteps(s);
    ScoreAppend(rest, GlVotes(f), o);
    ScoreAppend(rest, GlSteps(None), o);
    ScoreOne(Step(false, GlRule(GlUnavailable), 0, []), o);
  }

  lemma MaleoonMatchesIntended(renderer: string)
    requires renderer == "Maleoon 910"
    ensures Contains(Lower(renderer), "maleoon")
  {
    var r := Lower(renderer);
    assert r[0..7] == "maleoon";
    assert OccursAt(r, "maleoon", 0);
  }

  lemma MaleoonMissesWritten(renderer: string)
    requires renderer == "Maleoon 910"
    ensures !Contains(Lower(renderer), "adreno") && !Contains(Lower(renderer), "mali")
    ensures !Contains(Lower(renderer), "powervr")
  {
    var r := Lower(renderer);
    assert r == "maleoon 910";
    MissingCharNotContained(r, "adreno", 'd');
    MissingCharNotContained(r, "mali", 'i');
    MissingCharNotContained(r, "powervr", 'p');
  }
}
