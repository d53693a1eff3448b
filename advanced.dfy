/**
 * The reconciliation at the end of `performAdvancedDetection()`: the passkey
 * and Client-Hints answers are combined, compared with the basic result for
 * tampering, given a priority-ordered confidence and a score table, and the
 * system the page carries on with defaults to Android.
 */
module Advanced {
  import opened Options
  import opened Platforms
  import opened Strings
  import opened Classifiers

  /** The inputs of the reconciliation, each one an answer of an earlier probe. */
  datatype Inputs = Inputs(
    previous: Option<Os>,          // window.detectedOSType from the basic run
    clientHints: Option<Os>,       // clientHintsOS
    passkeySupported: bool,        // passkeyResult.supported
    platformAuthenticator: bool,   // passkeyResult.platformAuthenticator
    fromCertificate: Option<Os>)   // passkeyResult.osFromCertificate

  /** What the reconciliation decides. */
  datatype Verdict = Verdict(
    advanced: Option<Os>,    // advancedDetectedOS
    unsupported: bool,       // isUnsupportedBrowser
    tampered: bool,          // isTampered
    conclusionOk: bool,      // `ok` of the final conclusion record
    confidence: int,         // finalConfidence
    finalOs: Option<Os>,     // finalOS
    target: Os)              // targetOS, stored as the detected system

  /** `passkeyOS`: the certificate answer, read only when WebAuthn is supported. */
  function PasskeyOf(i: Inputs): Option<Os>
  {
    if i.passkeySupported then i.fromCertificate else None
  }

  function Reconcile(i: Inputs): Verdict
  {
    var passkey := PasskeyOf(i);
    var hints := i.clientHints;
    var unsupported := i.passkeySupported && i.platformAuthenticator && passkey.None?;
    var advanced :=
      if passkey.Some? && hints.Some? then passkey   // agreeing or not, the passkey answer wins
      else if passkey.Some? then passkey
      else if hints.Some? then hints
      else None;
    var tampered := i.previous.Some? && advanced.Some? && i.previous != advanced;
    var conclusionOk := !tampered && !unsupported && (passkey.Some? || hints.Some?);
    var finalOs: Option<Os> :=
      if tampered then advanced
      else if unsupported then advanced
      else if passkey.Some? && hints.Some? then passkey
      else if passkey.Some? then passkey
      else if hints.Some? then hints
      else advanced;
    var confidence :=
      if tampered then 25
      else if unsupported then 40
      else if passkey.Some? && hints.Some? then 95
      else if passkey.Some? then 90
      else if hints.Some? then 75
      else 30;
    var target := if finalOs.Some? then finalOs.value else Android;
    Verdict(advanced, unsupported, tampered, conclusionOk, confidence, finalOs, target)
  }

  /** The advanced answer is the passkey answer when there is one, else the Client-Hints answer. */
  lemma AdvancedPrefersPasskey(i: Inputs)
    ensures Reconcile(i).advanced == Or(PasskeyOf(i), i.clientHints)
    ensures Reconcile(i).finalOs == Reconcile(i).advanced
  {
  }

  /**
   * A tampered run carries on with an answer other than the basic one, at
   * confidence 25 and without a successful conclusion; a run whose answer
   * agrees with an existing basic result is never tampered, and an
   * untampered run with both results carries on with the basic one.
   */
  lemma TamperingMeansConflict(i: Inputs)
    ensures var v := Reconcile(i);
            v.tampered ==> i.previous.Some? && v.finalOs.Some? && v.finalOs != i.previous
                           && v.target != i.previous.value && v.confidence == 25 && !v.conclusionOk
    ensures var v := Reconcile(i);
            i.previous.Some? && v.finalOs == i.previous ==> !v.tampered
    ensures var v := Reconcile(i);
            !v.tampered && i.previous.Some? && v.finalOs.Some? ==> v.target == i.previous.value
  {
  }

  /**
   * The confidence names the case it was reached in: 25 exactly for a
   * tampered run, 40 exactly for an unsupported browser that was not
   * tampered, 30 exactly when neither probe answered, and 75 or more exactly
   * when the conclusion succeeded.
   */
  lemma ConfidenceLevels(i: Inputs)
    ensures var v := Reconcile(i);
            (v.confidence == 25 <==> v.tampered)
            && (v.confidence == 40 <==> !v.tampered && v.unsupported)
            && (v.confidence == 30 <==> !v.tampered && !v.unsupported && PasskeyOf(i).None? && i.clientHints.None?)
            && (v.confidence >= 75 <==> v.conclusionOk)
  {
  }

  /**
   * While neither run is tampered nor on an unsupported browser, more
   * evidence never lowers the confidence, and a passkey answer weighs more
   * than a Client-Hints one.
   */
  lemma ConfidenceGrowsWithEvidence(i: Inputs, j: Inputs)
    requires !Reconcile(i).tampered && !Reconcile(i).unsupported
    requires !Reconcile(j).tampered && !Reconcile(j).unsupported
    ensures (PasskeyOf(i).Some? ==> PasskeyOf(j).Some?) && (i.clientHints.Some? ==> j.clientHints.Some?)
            ==> Reconcile(i).confidence <= Reconcile(j).confidence
    ensures PasskeyOf(i).None? && PasskeyOf(j).Some? ==> Reconcile(i).confidence < Reconcile(j).confidence
  {
  }

  /**
   * A browser that reports WebAuthn and a platform authenticator but yields
   * no passkey answer cannot reach 90 or 95; a tampered result is always at 25.
   */
  lemma UnsupportedCapsConfidence(i: Inputs)
    ensures Reconcile(i).unsupported ==> Reconcile(i).confidence <= 40
    ensures Reconcile(i).tampered ==> Reconcile(i).confidence == 25
    ensures Reconcile(i).conclusionOk ==> Reconcile(i).confidence in {95, 90, 75}
  {
  }

  /** The system carried on with is the advanced answer, or Android when there is none. */
  lemma TargetDefaultsToAndroid(i: Inputs)
    ensures Reconcile(i).target == if Reconcile(i).advanced.Some? then Reconcile(i).advanced.value else Android
  {
  }

  /** Without a basic result there is nothing to compare, so no tampering is ever flagged. */
  lemma NoPreviousNoTamper(i: Inputs)
    requires i.previous.None?
    ensures !Reconcile(i).tampered
  {
  }

  /**
   * After advanced detection the canvas is off exactly when the path asks for
   * it or the system carried on with is an Apple one.
   */
  lemma CanvasAfterAdvanced(i: Inputs, path: string, applePlatform: bool)
    ensures ShouldDisableCanvas(path, Some(Reconcile(i).target), true, applePlatform)
            <==> Contains(path, "disablecanvas") || IsApple(Reconcile(i).target)
  {
    CanvasDecision(path, Some(Reconcile(i).target), true, applePlatform);
  }

  /** `advancedScores`: 8 for the passkey answer, 6 for the Client-Hints answer, 2 more for the passkey answer on conflict. */
  function AdvancedScores(passkey: Option<Os>, hints: Option<Os>): (m: map<Os, int>)
  {
    var m0 := map[Android := 0, Ios := 0, IpadOs := 0, MacOs := 0, Windows := 0, Linux := 0];
    var m1 := if passkey.Some? then Bump(m0, passkey.value, 8) else m0;
    var m2 := if hints.Some? then Bump(m1, hints.value, 6) else m1;
    if passkey.Some? && hints.Some? && passkey != hints then Bump(m2, passkey.value, 2) else m2
  }

  /**
   * Every system has an advanced score; a passkey answer alone gets 8, with
   * an agreeing Client-Hints answer 14 and against a disagreeing one 10 to 6.
   * The passkey answer therefore strictly leads whenever it exists, and the
   * Client-Hints answer leads when it is alone.
   */
  lemma AdvancedScoresLead(passkey: Option<Os>, hints: Option<Os>)
    ensures forall o: Os :: o in AdvancedScores(passkey, hints)
    ensures forall o: Os :: AdvancedScores(passkey, hints)[o]
              == (if passkey == Some(o) then (if hints.Some? && hints != passkey then 10 else 8) else 0)
               + (if hints == Some(o) then 6 else 0)
    ensures passkey.Some? ==> forall o: Os :: o != passkey.value ==>
              AdvancedScores(passkey, hints)[o] < AdvancedScores(passkey, hints)[passkey.value]
  {
    var m0 := map[Android := 0, Ios := 0, IpadOs := 0, MacOs := 0, Windows := 0, Linux := 0];
    assert m0.Keys == {Android, Ios, IpadOs, MacOs, Windows, Linux};
    forall o: Os ensures o in m0 {
      match o
      case Android => case Ios => case IpadOs => case MacOs => case Windows => case Linux =>
    }
  }
}
