/**
 * One run of `detect()`: the rule table cast onto a fresh score board in
 * source order, the ranking, the user-agent tie-break when several systems
 * share the top score, the confidence, and the closing snapshot record.
 */
module Detection {
  import opened Options
  import opened Strings
  import opened Platforms
  import opened Scoring
  import opened Ranking
  import opened TieBreak
  import opened Confidences

  /** The score table a log implies, one entry per system. */
  function ScoresOf(log: seq<Step>): (m: map<Os, int>)
    ensures Complete(m)
    ensures forall o: Os :: m[o] == Score(log, o)
  {
    AllInOrder();
    map o: Os | o in Order :: Score(log, o)
  }

  /** `{ scores, top: finalTopName, confidence }`. */
  datatype Outcome = Outcome(scores: map<Os, int>, top: Os, confidence: int)

  /** The tie-break's answer: only consulted when more than one system has the top score. */
  function TieHit(r: Ranked, userAgent: string, platform: string): Option<Os>
  {
    if |r.candidates| > 1 then BreakTie(r.candidates, userAgent, platform) else None
  }

  /** The tie-break record: present only for a tie, and marked as fired when the tie was resolved. */
  function TieSteps(r: Ranked, hit: Option<Os>): seq<Step>
  {
    if |r.candidates| > 1 then [Step(hit.Some?, TieRule(hit.Some?), 0, r.candidates)] else []
  }

  /** After scoring: the winner (the tie-break's answer when there is one) and the confidence. */
  function Decide(scores: map<Os, int>, userAgent: string, platform: string): Outcome
    requires Complete(scores)
  {
    var r := Rank(scores);
    var hit := TieHit(r, userAgent, platform);
    Outcome(scores, if hit.Some? then hit.value else r.top, Confidence(r.topScore, r.gap))
  }

  /** The outcome of a run over the given signals, user agent and platform. */
  function Expected(s: Signals, userAgent: string, platform: string): Outcome
  {
    Decide(ScoresOf(BaseSteps(s)), userAgent, platform)
  }

  /** The audit log of a run: the rule table, the tie-break record if any, and the snapshot. */
  function ExpectedLog(s: Signals, userAgent: string, platform: string): seq<Step>
  {
    var r := Rank(ScoresOf(BaseSteps(s)));
    BaseSteps(s) + TieSteps(r, TieHit(r, userAgent, platform)) + [Step(true, SnapshotRule, 0, [])]
  }

  // ---------------------------------------------------------------------------
  // The run, part by part, on a score board

  /** `if (c) vote(...) else mark(...)`: one record either way, with the same weight and targets. */
  method VoteOrMarkOn(b: ScoreBoard, c: bool, rule: Rule, targets: seq<Os>, weight: nat)
    requires b.Valid()
    modifies b
    ensures b.Valid() && b.log == old(b.log) + VoteOrMark(c, rule, targets, weight)
  {
    if c {
      b.Vote(targets, weight, rule, true);
    } else {
      b.Mark(rule, weight, targets);
    }
  }

  /** `if (c) vote(...)`: a record only when the signal is present. */
  method VoteIfOn(b: ScoreBoard, c: bool, rule: Rule, targets: seq<Os>, weight: nat)
    requires b.Valid()
    modifies b
    ensures b.Valid() && b.log == old(b.log) + VoteIf(c, rule, targets, weight)
  {
    if c {
      b.Vote(targets, weight, rule, true);
    }
  }

  /** The base pointer vote. */
  method CastPointer(b: ScoreBoard, s: Signals)
    requires b.Valid()
    modifies b
    ensures b.Valid() && b.log == old(b.log) + PointerSteps(s)
  {
    var hasRealTouch := s.touchPoints > 0 && s.touchStartInWindow;
    var isPrimaryTouch := s.pointerCoarse && !s.hover;
    if hasRealTouch || isPrimaryTouch {
      b.Vote([Android, Ios, IpadOs], 2, PointerRule(true), true);
    } else {
      b.Vote([MacOs, Windows, Linux], 2, PointerRule(false), true);
    }
  }

  /** The Apple signals: four votes that leave a `mark` when absent, and the standalone vote. */
  method CastApple(b: ScoreBoard, s: Signals)
    requires b.Valid()
    modifies b
    ensures b.Valid() && b.log == old(b.log) + AppleSteps(s)
  {
    ghost var l0 := b.log;
    VoteOrMarkOn(b, s.webkitTouchCallout || s.webkitOverflowScrolling, AppleRule(WebkitMobileCss), [Ios, IpadOs], 5);
    VoteOrMarkOn(b, s.applePay, AppleRule(ApplePay), [Ios, IpadOs, MacOs], 4);
    VoteOrMarkOn(b, s.safariPush, AppleRule(SafariPush), [MacOs], 4);
    CastAppleLate(b, s);
    AppleHalves(s);
    Assoc(l0, VoteOrMark(WebkitMobileCssOf(s), AppleRule(WebkitMobileCss), [Ios, IpadOs], 5),
          VoteOrMark(s.applePay, AppleRule(ApplePay), [Ios, IpadOs, MacOs], 4),
          VoteOrMark(s.safariPush, AppleRule(SafariPush), [MacOs], 4), AppleLateSteps(s));
  }

  /** The iOS permission shape (with a `mark` when absent) and the standalone vote. */
  function AppleLateSteps(s: Signals): seq<Step>
  {
    VoteOrMark(s.iosPermissionShape, AppleRule(IosPermission), [Ios, IpadOs], 6)
    + VoteIf(s.hasStandalone, AppleRule(Standalone), [Ios, IpadOs], 2)
  }

  method CastAppleLate(b: ScoreBoard, s: Signals)
    requires b.Valid()
    modifies b
    ensures b.Valid() && b.log == old(b.log) + AppleLateSteps(s)
  {
    VoteOrMarkOn(b, s.iosPermissionShape, AppleRule(IosPermission), [Ios, IpadOs], 6);
    VoteIfOn(b, s.hasStandalone, AppleRule(Standalone), [Ios, IpadOs], 2);
  }

  lemma AppleHalves(s: Signals)
    ensures AppleSteps(s) == VoteOrMark(WebkitMobileCssOf(s), AppleRule(WebkitMobileCss), [Ios, IpadOs], 5)
                             + VoteOrMark(s.applePay, AppleRule(ApplePay), [Ios, IpadOs, MacOs], 4)
                             + VoteOrMark(s.safariPush, AppleRule(SafariPush), [MacOs], 4) + AppleLateSteps(s)
  {
  }

  /** The Android signals: Web NFC (with a `mark` when absent) and related apps. */
  method CastAndroid(b: ScoreBoard, s: Signals)
    requires b.Valid()
    modifies b
    ensures b.Valid() && b.log == old(b.log) + AndroidSteps(s)
  {
    VoteOrMarkOn(b, s.webNfc, AndroidRule(WebNfc), [Android], 4);
    VoteIfOn(b, s.relatedApps, AndroidRule(RelatedApps), [Android], 3);
  }

  /** The desktop Chromium device APIs. */
  method CastDesktop(b: ScoreBoard, s: Signals)
    requires b.Valid()
    modifies b
    ensures b.Valid() && b.log == old(b.log) + DesktopSteps(s)
  {
    ghost var l0 := b.log;
    VoteIfOn(b, s.webSerial, DesktopRule(WebSerial), [Windows, MacOs, Linux], 4);
    ghost var l1 := b.log;
    VoteIfOn(b, s.webHid, DesktopRule(WebHid), [Windows, MacOs, Linux], 2);
    ghost var l2 := b.log;
    VoteIfOn(b, s.webUsb, DesktopRule(WebUsb), [Windows, MacOs, Linux], 1);
    assert b.log == l0 + (l1[|l0|..] + l2[|l1|..] + b.log[|l2|..]);
  }

  /** The Apple phone/tablet size split. */
  method CastSize(b: ScoreBoard, s: Signals)
    requires b.Valid()
    modifies b
    ensures b.Valid() && b.log == old(b.log) + SizeSteps(s)
  {
    var touchy := (s.touchPoints > 0 && s.touchStartInWindow) || (s.pointerCoarse && !s.hover);
    if (s.webkitTouchCallout || s.webkitOverflowScrolling || s.iosPermissionShape) && touchy {
      if s.shortSideAtLeast600 {
        b.Vote([IpadOs], 5, SizeRule(true), true);
      } else {
        b.Vote([Ios], 5, SizeRule(false), true);
      }
    }
  }

  /** The graphics-stack votes over the lower-cased vendor and renderer, or one `mark` without a context. */
  method CastGl(b: ScoreBoard, s: Signals)
    requires b.Valid()
    modifies b
    ensures b.Valid() && b.log == old(b.log) + GlSteps(GlOf(s))
  {
    match s.gl
    case None =>
      b.Mark(GlRule(GlUnavailable), 0, []);
    case Some(g) =>
      var touchy := (s.touchPoints > 0 && s.touchStartInWindow) || (s.pointerCoarse && !s.hover);
      CastGlVotes(b, GlFlagsOf(g, touchy));
  }

  /** The six renderer rules, each a vote only when its test holds: the first three, then the last three. */
  method CastGlVotes(b: ScoreBoard, f: GlFlags)
    requires b.Valid()
    modifies b
    ensures b.Valid() && b.log == old(b.log) + GlVotes(f)
  {
    ghost var l0 := b.log;
    VoteIfOn(b, f.apple, GlRule(GlApple), [MacOs, Ios, IpadOs], 6);
    VoteIfOn(b, f.direct3d, GlRule(GlDirect3d), [Windows], 6);
    VoteIfOn(b, f.mesa, GlRule(GlMesa), [Linux], 5);
    CastGlLateVotes(b, f);
    GlVotesHalves(f);
    Assoc(l0, VoteIf(f.apple, GlRule(GlApple), [MacOs, Ios, IpadOs], 6), VoteIf(f.direct3d, GlRule(GlDirect3d), [Windows], 6),
          VoteIf(f.mesa, GlRule(GlMesa), [Linux], 5), GlLateVotes(f));
  }

  method CastGlLateVotes(b: ScoreBoard, f: GlFlags)
    requires b.Valid()
    modifies b
    ensures b.Valid() && b.log == old(b.log) + GlLateVotes(f)
  {
    ghost var l0 := b.log;
    VoteIfOn(b, f.displayStack, GlRule(GlDisplayStack), [Linux], 4);
    VoteIfOn(b, f.mobileGpu, GlRule(GlMobileGpu), [Android], 4);
    VoteIfOn(b, f.angleMetal, GlRule(GlAngleMetal), [MacOs], 4);
    Assoc(l0, VoteIf(f.displayStack, GlRule(GlDisplayStack), [Linux], 4), VoteIf(f.mobileGpu, GlRule(GlMobileGpu), [Android], 4),
          VoteIf(f.angleMetal, GlRule(GlAngleMetal), [MacOs], 4), []);
  }

  /** Appending records one group at a time appends their concatenation. */
  lemma Assoc(l: seq<Step>, a: seq<Step>, b: seq<Step>, c: seq<Step>, d: seq<Step>)
    ensures l + a + b + c + d == l + (a + b + c + d)
    ensures l + a + b + c == l + (a + b + c)
  {
  }

  /** The display-stack, mobile-GPU and ANGLE/Metal votes. */
  function GlLateVotes(f: GlFlags): seq<Step>
  {
    VoteIf(f.displayStack, GlRule(GlDisplayStack), [Linux], 4)
    + VoteIf(f.mobileGpu, GlRule(GlMobileGpu), [Android], 4)
    + VoteIf(f.angleMetal, GlRule(GlAngleMetal), [MacOs], 4)
  }

  lemma GlVotesHalves(f: GlFlags)
    ensures GlVotes(f) == VoteIf(f.apple, GlRule(GlApple), [MacOs, Ios, IpadOs], 6)
                          + VoteIf(f.direct3d, GlRule(GlDirect3d), [Windows], 6)
                          + VoteIf(f.mesa, GlRule(GlMesa), [Linux], 5) + GlLateVotes(f)
  {
  }

  /** The whole rule table, part by part in source order. */
  method CastTable(b: ScoreBoard, s: Signals)
    requires b.Valid()
    modifies b
    ensures b.Valid() && b.log == old(b.log) + BaseSteps(s)
  {
    ghost var l0 := b.log;
    CastPointer(b, s);
    CastApple(b, s);
    CastAndroid(b, s);
    ghost var l1 := b.log;
    Assoc(l0, PointerSteps(s), AppleSteps(s), AndroidSteps(s), []);
    CastDesktop(b, s);
    CastSize(b, s);
    CastGl(b, s);
    Assoc(l1, DesktopSteps(s), SizeSteps(s), GlSteps(GlOf(s)), []);
    Assoc6(l0, PointerSteps(s), AppleSteps(s), AndroidSteps(s), DesktopSteps(s), SizeSteps(s), GlSteps(GlOf(s)));
  }

  lemma Assoc6(l: seq<Step>, a: seq<Step>, b: seq<Step>, c: seq<Step>, d: seq<Step>, e: seq<Step>, f: seq<Step>)
    ensures l + (a + b + c) + (d + e + f) == l + (a + b + c + d + e + f)
  {
  }

  /**
   * `detect()`: a fresh board, the rule table in source order, the ranking,
   * the tie-break record when the top is shared, and the snapshot record.
   * The board's log is the expected log and the outcome the expected outcome.
   */
  method Detect(s: Signals, userAgent: string, platform: string) returns (board: ScoreBoard, out: Outcome)
    ensures fresh(board) && board.Valid()
    ensures board.log == ExpectedLog(s, userAgent, platform)
    ensures out == Expected(s, userAgent, platform)
    ensures out.scores == board.scores
  {
    board := new ScoreBoard();
    CastTable(board, s);
    assert board.log == BaseSteps(s);
    var scores := board.scores;
    assert scores == ScoresOf(BaseSteps(s)) by {
      AllInOrder();
      assert forall o: Os :: o in scores && scores[o] == ScoresOf(BaseSteps(s))[o];
    }
    var r := Rank(scores);
    var finalTop := r.top;
    if |r.candidates| > 1 {
      var hit := BreakTie(r.candidates, userAgent, platform);
      if hit.Some? {
        finalTop := hit.value;
      }
      board.Note(hit.Some?, TieRule(hit.Some?), r.candidates);
    }
    var confidence := Confidence(r.topScore, r.gap);
    board.Note(true, SnapshotRule, []);
    out := Outcome(scores, finalTop, confidence);
  }

  // ---------------------------------------------------------------------------
  // What a run promises

  /**
   * The winner has the top score, which no system exceeds, except through
   * the HarmonyOS override of the tie-break; without a tie it is the only
   * system with that score.
   */
  lemma WinnerHasTopScore(scores: map<Os, int>, userAgent: string, platform: string)
    requires Complete(scores)
    ensures forall o: Os :: scores[o] <= Rank(scores).topScore
    ensures scores[Decide(scores, userAgent, platform).top] == Rank(scores).topScore
            || (UaFlagsOf(userAgent, platform).harmony && Decide(scores, userAgent, platform).top == Android)
    ensures Rank(scores).gap > 0 ==>
              Decide(scores, userAgent, platform).top == Rank(scores).top
              && forall o: Os :: o != Rank(scores).top ==> scores[o] < Rank(scores).topScore
  {
    var r := Rank(scores);
    WinnerIsFirstMaximal(scores);
    GapAndTies(scores);
    var hit := TieHit(r, userAgent, platform);
    if hit.Some? {
      ChainPicksCandidate(r.candidates, UaFlagsOf(userAgent, platform));
      if hit.value in r.candidates {
        CandidatesAreTopScorers(scores, hit.value);
      }
    }
    if r.gap > 0 {
      forall o: Os | o != r.top ensures scores[o] < r.topScore {
        CandidatesAreTopScorers(scores, o);
      }
    }
  }

  /**
   * The confidence is zero exactly when the top score is not positive, and a
   * tie at a positive top score always gets the lowest positive tier.
   */
  lemma DecideConfidence(scores: map<Os, int>, userAgent: string, platform: string)
    requires Complete(scores)
    ensures Decide(scores, userAgent, platform).confidence == 0 <==> Rank(scores).topScore <= 0
    ensures |Rank(scores).candidates| > 1 && Rank(scores).topScore > 0 ==> Decide(scores, userAgent, platform).confidence == 45
  {
    GapAndTies(scores);
  }

  /**
   * The base pointer vote always fires, so a run never ends with every score
   * at zero: the top score is at least 2 and the confidence a positive tier.
   */
  lemma RunConfidencePositive(s: Signals, userAgent: string, platform: string)
    ensures Rank(ScoresOf(BaseSteps(s))).topScore >= 2
    ensures Expected(s, userAgent, platform).confidence in Levels
  {
    var m := ScoresOf(BaseSteps(s));
    var o := PointerFamily(IsTouchy(s))[0];
    PointerFamilyScoresAtLeastTwo(s, GlOf(s), o);
    WinnerIsFirstMaximal(m);
    assert m[o] >= 2;
  }

  /** A run's log holds a tie-break record exactly when the top score is shared, and ends with the snapshot. */
  lemma TieRecordIffTie(s: Signals, userAgent: string, platform: string)
    ensures var log := ExpectedLog(s, userAgent, platform);
            var r := Rank(ScoresOf(BaseSteps(s)));
            (|log| == |BaseSteps(s)| + 2 <==> |r.candidates| > 1)
            && log[|log| - 1] == Step(true, SnapshotRule, 0, [])
            && (|r.candidates| > 1 ==>
                  log[|BaseSteps(s)|].rule == TieRule(TieHit(r, userAgent, platform).Some?)
                  && log[|BaseSteps(s)|].targets == r.candidates)
  {
  }

  /** The six scores of a run add up to the weight its fired checks cast. */
  lemma ExpectedConservation(s: Signals, userAgent: string, platform: string)
    ensures var m := Expected(s, userAgent, platform).scores;
            m[Android] + m[Ios] + m[IpadOs] + m[MacOs] + m[Windows] + m[Linux] == CastWeight(BaseSteps(s))
  {
    ScoreConservation(BaseSteps(s));
  }

  // ---------------------------------------------------------------------------
  // Two scenarios

  /** Signals where only the given pointer and permission facts are present, and no WebGL context exists. */
  function Quiet(touchy: bool, iosPermission: bool): Signals
  {
    Signals(if touchy then 1 else 0, touchy, false, true, true, false, false, false, false, iosPermission,
            false, false, false, false, false, false, false, None)
  }

  /**
   * Only the touch-primary vote fires: Android, iOS and iPadOS share 2
   * points, the tie-break is consulted on exactly those three, and the
   * confidence is the lowest positive tier.
   */
  lemma TouchOnlyTies(userAgent: string, platform: string)
    ensures forall o: Os :: Expected(Quiet(true, false), userAgent, platform).scores[o]
                              == if o == Android || o == Ios || o == IpadOs then 2 else 0
    ensures forall o: Os :: (o in Rank(ScoresOf(BaseSteps(Quiet(true, false)))).candidates) <==> (o == Android || o == Ios || o == IpadOs)
    ensures |Rank(ScoresOf(BaseSteps(Quiet(true, false)))).candidates| > 1
    ensures Expected(Quiet(true, false), userAgent, platform).confidence == 45
  {
    TouchOnlyScores();
    TouchOnlyRanking();
    DecideConfidence(ScoresOf(BaseSteps(Quiet(true, false))), userAgent, platform);
  }

  lemma TouchOnlyScores()
    ensures forall o: Os :: ScoresOf(BaseSteps(Quiet(true, false)))[o]
                              == if o == Android || o == Ios || o == IpadOs then 2 else 0
  {
    var s := Quiet(true, false);
    forall o: Os ensures ScoresOf(BaseSteps(s))[o] == if o == Android || o == Ios || o == IpadOs then 2 else 0 {
      QuietScore(s.touchPoints > 0, s.iosPermissionShape, o);
    }
  }

  lemma TouchOnlyRanking()
    ensures forall o: Os :: (o in Rank(ScoresOf(BaseSteps(Quiet(true, false)))).candidates) <==> (o == Android || o == Ios || o == IpadOs)
    ensures |Rank(ScoresOf(BaseSteps(Quiet(true, false)))).candidates| > 1
    ensures Rank(ScoresOf(BaseSteps(Quiet(true, false)))).topScore == 2
  {
    var m := ScoresOf(BaseSteps(Quiet(true, false)));
    TouchOnlyScores();
    WinnerIsFirstMaximal(m);
    assert Rank(m).topScore == 2 by {
      assert m[Android] == 2;
    }
    forall o: Os ensures o in Rank(m).candidates <==> o == Android || o == Ios || o == IpadOs {
      CandidatesAreTopScorers(m, o);
    }
    TwoMembers(Rank(m).candidates, Android, Ios);
  }

  /** Only the iOS permission vote fires on a fine-pointer device: iOS and iPadOS tie at 6 points. */
  lemma PermissionOnlyTies()
    ensures forall o: Os :: ScoresOf(BaseSteps(Quiet(false, true)))[o]
                              == if o == Ios || o == IpadOs then 6 else if o == Android then 0 else 2
    ensures forall o: Os :: (o in Rank(ScoresOf(BaseSteps(Quiet(false, true)))).candidates) <==> (o == Ios || o == IpadOs)
    ensures |Rank(ScoresOf(BaseSteps(Quiet(false, true)))).candidates| > 1
    ensures Rank(ScoresOf(BaseSteps(Quiet(false, true)))).topScore == 6
  {
    var m := ScoresOf(BaseSteps(Quiet(false, true)));
    PermissionOnlyScores();
    WinnerIsFirstMaximal(m);
    assert Rank(m).topScore == 6 by {
      assert m[Ios] == 6;
    }
    forall o: Os ensures o in Rank(m).candidates <==> o == Ios || o == IpadOs {
      CandidatesAreTopScorers(m, o);
    }
    TwoMembers(Rank(m).candidates, Ios, IpadOs);
  }

  lemma PermissionOnlyScores()
    ensures forall o: Os :: ScoresOf(BaseSteps(Quiet(false, true)))[o]
                              == if o == Ios || o == IpadOs then 6 else if o == Android then 0 else 2
  {
    forall o: Os ensures ScoresOf(BaseSteps(Quiet(false, true)))[o]
                           == if o == Ios || o == IpadOs then 6 else if o == Android then 0 else 2 {
      QuietScore(false, true, o);
    }
  }

  /**
   * In that tie, a user agent naming an iPad (and no iPhone, Android or
   * HarmonyOS) resolves the tie to iPadOS, at the lowest positive confidence.
   */
  lemma PermissionOnlyIpad(userAgent: string, platform: string)
    requires UaFlagsOf(userAgent, platform).ipad && !UaFlagsOf(userAgent, platform).iphone
    requires !UaFlagsOf(userAgent, platform).android && !UaFlagsOf(userAgent, platform).harmony
    ensures Expected(Quiet(false, true), userAgent, platform).top == IpadOs
    ensures Expected(Quiet(false, true), userAgent, platform).confidence == 45
  {
    var m := ScoresOf(BaseSteps(Quiet(false, true)));
    PermissionOnlyTies();
    IpadTieIsIpados(Rank(m).candidates, UaFlagsOf(userAgent, platform));
    DecideConfidence(m, userAgent, platform);
  }

  /** A list holding two different systems has more than one element. */
  lemma TwoMembers(c: seq<Os>, a: Os, b: Os)
    requires a in c && b in c && a != b
    ensures |c| > 1
  {
  }

  /** One score of a quiet run: the pointer vote, the permission vote, and the phone-size vote they trigger together. */
  lemma QuietScore(touchy: bool, iosPermission: bool, o: Os)
    ensures Score(BaseSteps(Quiet(touchy, iosPermission)), o)
            == (if o in PointerFamily(touchy) then 2 else 0)
             + (if iosPermission && (o == Ios || o == IpadOs) then 6 else 0)
             + (if touchy && iosPermission && o == Ios then 5 else 0)
  {
    var s := Quiet(touchy, iosPermission);
    assert BaseSteps(s) == Table(s, None);
    TableScore(s, None, o);
    QuietPointer(touchy, iosPermission, o);
    QuietApple(touchy, iosPermission, o);
    QuietRest(touchy, iosPermission, o);
  }

  lemma QuietPointer(touchy: bool, iosPermission: bool, o: Os)
    ensures Score(PointerSteps(Quiet(touchy, iosPermission)), o) == if o in PointerFamily(touchy) then 2 else 0
  {
    var s := Quiet(touchy, iosPermission);
    assert IsTouchy(s) == touchy;
    ScoreOne(PointerSteps(s)[0], o);
    FamilyCount(touchy, o);
  }

  lemma FamilyCount(touchy: bool, o: Os)
    ensures Count(PointerFamily(touchy), o) == if o in PointerFamily(touchy) then 1 else 0
  {
    CountDistinct(PointerFamily(touchy), o);
  }

  lemma QuietRest(touchy: bool, iosPermission: bool, o: Os)
    ensures var s := Quiet(touchy, iosPermission);
            Score(AndroidSteps(s), o) == 0 && Score(DesktopSteps(s), o) == 0 && Score(GlSteps(None), o) == 0
            && Score(SizeSteps(s), o) == if touchy && iosPermission && o == Ios then 5 else 0
  {
    var s := Quiet(touchy, iosPermission);
    var nfc := AndroidSteps(s);
    assert nfc == [Step(false, AndroidRule(WebNfc), 4, [Android])];
    ScoreOne(nfc[0], o);
    assert DesktopSteps(s) == [];
    ScoreOne(Step(false, GlRule(GlUnavailable), 0, []), o);
    var z := SizeSteps(s);
    if z != [] {
      assert z == [Step(true, SizeRule(false), 5, [Ios])];
      ScoreOne(z[0], o);
    }
  }

  lemma QuietApple(touchy: bool, iosPermission: bool, o: Os)
    ensures Score(AppleSteps(Quiet(touchy, iosPermission)), o) == if iosPermission && (o == Ios || o == IpadOs) then 6 else 0
  {
    var a0 := Step(false, AppleRule(WebkitMobileCss), 5, [Ios, IpadOs]);
    var a1 := Step(false, AppleRule(ApplePay), 4, [Ios, IpadOs, MacOs]);
    var a2 := Step(false, AppleRule(SafariPush), 4, [MacOs]);
    var a3 := Step(iosPermission, AppleRule(IosPermission), 6, [Ios, IpadOs]);
    assert AppleSteps(Quiet(touchy, iosPermission)) == [a0] + [a1] + [a2] + [a3];
    ScoreAppend([a0] + [a1] + [a2], [a3], o);
    ScoreAppend([a0] + [a1], [a2], o);
    ScoreAppend([a0], [a1], o);
    ScoreOne(a0, o);
    ScoreOne(a1, o);
    ScoreOne(a2, o);
    ScoreOne(a3, o);
    if o == Ios || o == IpadOs {
      CountDistinct(a3.targets, o);
    }
  }
}
