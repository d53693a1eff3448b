# OS detection page and its server, modelled in Dafny

The page guesses the visitor's operating system (Android, iOS, iPadOS,
macOS, Windows or Linux) from browser signals. It does this with a weighted
vote: each check that fires adds its weight to the systems it names in a
score table, and every check leaves one record in an audit log. The table is
then ranked with a stable descending sort. When several systems share the
top score, an ordered chain of user-agent keyword tests breaks the tie. The
top score and its lead over the runner-up select a confidence percentage,
and every score becomes a bar width.

An "advanced" pass reconciles the passkey (WebAuthn) inference with the
Client-Hints platform. It flags tampering when the result disagrees with the
basic run, and it decides whether canvas rendering is switched off. The
enhanced pass adds font and media-codec pattern tables. The static Node
server picks MIME types, cleans and summarises the Client-Hints request
headers, chooses the IPv4 address it announces, routes requests, and answers
WebGL control requests.

Modules, one per part of the program:

- `Strings`, `Options`, `Platforms`: ASCII lower-casing, substring tests, JavaScript `trim`, `Option`, the six systems and their table order.
- `Scoring`: the `ScoreBoard` class. Its `scores` map and `log` sequence are the `scores` object and the `addStep` records of `detect()`. `Vote` and `Mark` update them in place. The rule table `Table` gives the records in source order.
- `Ranking`: `Object.entries(scores)` sorted stably by descending score, the winner, the gap and the tie set.
- `TieBreak`: `breakTieWithUA`.
- `Confidences`: the confidence table, the `enhancedDetect` clamp and the bar width.
- `Detection`: the `Detect` method, which runs the whole of `detect()` on a fresh board and is proved against `Expected`/`ExpectedLog`.
- `Classifiers`: `getOSInfo`, `isAppleDevice`, `isApplePlatform`, the Client-Hints mapping, both WebAuthn inferences, the passkey probe's answer and `shouldDisableCanvas`.
- `Advanced`: the reconciliation at the end of `performAdvancedDetection`.
- `Patterns`: `performFontDetection` and `performMediaAnalysis`, as methods that build their maps in loops and updates.
- `Server`: `getContentType` with `path.extname`, `cleanClientHintValue`, `extractClientHints`, `getLocalIPv4` (nested loops with early return), the request routing, and the WebGL control reply.

Browser probes, the user agent, the platform string, the network interface
list, request headers and the parsed request body are all parameters.

Two behaviours of the code a reader may not expect:

- A run where no signal fires, so every score is zero and the confidence is 0, cannot happen. The pointer vote always fires for one of the two families (`Detection.RunConfidencePositive`).
- In the tie between iOS and iPadOS, the tablet keyword `ipad` is looked for in the user agent, not in the platform string. Only `/mac/` is tested on the platform (`TieBreak.UaFlagsOf`, `Detection.PermissionOnlyIpad`).

## Model

| member | source | states |
|---|---|---|
| Scoring.ScoreBoard.constructor | public/script.js:795 | the board starts with all six systems at 0 and an empty log, and its scores equal what the log implies |
| Scoring.ScoreBoard.Vote | public/script.js:799-802 | when `ok`, each listed system gains the weight once per mention and no other score changes; either way exactly one record is appended; scores stay equal to what the log implies |
| Scoring.ScoreBoard.Mark | public/script.js:803 | one not-fired record is appended and no score changes |
| Scoring.ScoreBoard.Note | public/script.js:1004-1016 | a weight-0 record (tie-break or snapshot) is appended and no score changes |
| Scoring.ScoreAppend | public/script.js:799-802 | the score a log implies is additive over concatenated logs |
| Scoring.ScoreConservation | public/script.js:799-802 | the six scores add up to the weight the fired records cast (weight times number of targets): no vote is lost or double-counted |
| Scoring.CountDistinct | public/script.js:800 | a target list without repeats gives each listed system exactly one mention |
| Scoring.PointerVoteExactlyOne | public/script.js:811-820 | exactly one pointer vote is cast, first, with weight 2: to Android/iOS/iPadOS when touch-primary, to macOS/Windows/Linux otherwise |
| Scoring.PointerFamilyScoresAtLeastTwo | public/script.js:811-820 | every system of the chosen pointer family ends the table with at least 2 points |
| Scoring.AppleSizeSplit | public/script.js:891-899 | inside the Apple mobile branch exactly one size record is logged: 5 points to iPadOS when the short side is at least 600 CSS pixels, else 5 to iOS; it gives nothing to any other system, and outside the branch there is no record |
| Scoring.TableScore | public/script.js:816-933 | each score of the rule table is the sum over its pointer, Apple, Android, desktop, size and graphics parts |
| Scoring.PointerPartCount | public/script.js:816-933 | the table holds exactly one pointer record, whatever the signals |
| Scoring.AllInCount | public/script.js:816-933 | a group whose records all come from one part of the table contributes only to that part's record count |
| Scoring.MaleoonNeverMatches | public/script.js:924 | the written `'Maleoon'` test is never true of a lower-cased renderer, so the written GPU test reduces to adreno/mali/powervr |
| Scoring.MaleoonCounterexample | public/script.js:924 | the renderer `Maleoon 910` passes the intended mobile-GPU test and fails the written one, so on a touch device the written code casts no Android vote for it where the intended one casts 4 |
| Scoring.GpuVoteScore | public/script.js:923-926 | changing the outcome of the mobile-GPU test changes only Android's graphics points, by 4 |
| Scoring.MaleoonRendererVotesAndroid | public/script.js:923-926 | under the intended test a renderer naming Maleoon in any case gives Android on a touch device exactly 4 graphics points more than the written test, unless another mobile GPU name already voted; no other system and nothing off a touch device changes |
| Scoring.MaleoonRunGain | public/script.js:816-933 | over the whole rule table the intended test changes only the Android score, by those 4 points |
| Ranking.Idx | public/script.js:795 | each system's position in the table's insertion order |
| Ranking.Entries | public/script.js:940 | `Object.entries` lists all six systems in insertion order, each with its score |
| Ranking.Insert | public/script.js:940 | inserting keeps the multiset of entries and adds one |
| Ranking.SortDesc | public/script.js:940 | the sort is a permutation of its input |
| Ranking.InsertOrdered | public/script.js:940 | inserting an entry that comes before every other in insertion order keeps the list stably ordered |
| Ranking.SortDescOrdered | public/script.js:940 | sorting a list given in insertion order yields descending scores, with ties kept in insertion order (the stable sort) |
| Ranking.WithScoreMembers | public/script.js:945 | a system is in the filtered list exactly when its entry has that score |
| Ranking.RankEntries | public/script.js:940 | the ranked entries are stably ordered, and they are exactly the table's pairs |
| Ranking.WinnerIsFirstMaximal | public/script.js:940-942 | the winner's score is the maximum, and every system before it in insertion order scores strictly less |
| Ranking.GapAndTies | public/script.js:940-945 | the gap is never negative; the tie set has more than one member exactly when the gap is 0; the tie set starts with the winner |
| Ranking.CandidatesAreTopScorers | public/script.js:945 | a system is a tie candidate exactly when it reaches the top score |
| Ranking.NonNegativeScores | public/script.js:941-943 | with non-negative scores, top score >= runner-up >= 0 |
| TieBreak.Pick | public/script.js:954 | `pick` answers a name exactly when it is a candidate |
| TieBreak.ChainPicksCandidate | public/script.js:948-997 | the answer is a candidate, except for the HarmonyOS override, which answers Android |
| TieBreak.HarmonyForcesAndroid | public/script.js:960-966 | a HarmonyOS or OpenHarmony user agent resolves to Android whatever the candidates |
| TieBreak.ChainHitIffSomePick | public/script.js:956-995 | without HarmonyOS, the chain answers only candidates, and it is silent exactly when no test's pick hits |
| TieBreak.NoKeywordNoHit | public/script.js:956-995 | a user agent and platform with none of the keywords give no answer |
| TieBreak.IphoneTieIsIos | public/script.js:968-971 | an iPhone user agent resolves an iOS/iPadOS tie to iOS |
| TieBreak.IpadTieIsIpados | public/script.js:973-976 | an iPad user agent resolves any tie that includes iPadOS to iPadOS |
| TieBreak.MacintoshMobilePrefersIpados | public/script.js:978-986 | a Macintosh user agent with `Mobile` prefers iPadOS over macOS |
| TieBreak.AndroidBeforeLinux | public/script.js:956-958 | the Android test comes before the Linux one, so an Android user agent wins an Android/Linux tie |
| TieBreak.AndroidUaFlags | public/script.js:956-992 | the user agent `Linux; Android 14` trips both the Android and the Linux tests |
| Confidences.Confidence | public/script.js:1021-1042 | the confidence is 0 exactly when the top score is not positive, and is otherwise one of the nine tiers |
| Confidences.ConfidenceMonotone | public/script.js:1021-1042 | a higher top score or a larger gap never lowers the confidence |
| Confidences.HighestTier | public/script.js:1024-1025 | top score 16 with gap 9 gets 98 |
| Confidences.LowestTier | public/script.js:1040-1041 | top score 3 with gap 0 gets 45 |
| Confidences.TieIsLowest | public/script.js:1040-1041 | any tie at a positive top score gets 45 |
| Confidences.EnhancedConfidence | public/script.js:3708 | the enhanced confidence is three times the top score, clamped to 60..95 |
| Confidences.EnhancedMonotone | public/script.js:3708 | the enhanced confidence never drops when the top score grows |
| Confidences.RoundDiv | public/script.js:1065 | `Math.round(n/d)` is the integer nearest to n/d, halves rounded up |
| Confidences.BarWidth | public/script.js:1065-1066 | a zero score has an empty bar; any other score has a bar between 6 and 100 |
| Confidences.TopBarIsFull | public/script.js:1065-1066 | the winner's bar is 100 wide |
| Confidences.BarWidthMonotone | public/script.js:1065-1066 | for a fixed top score, a higher non-zero score never gets a narrower bar |
| Detection.ScoresOf | public/script.js:795-803 | the table a log implies has an entry per system, equal to the log's score for it |
| Detection.VoteOrMarkOn | public/script.js:825-829 | `if (c) vote else mark` appends exactly one record with the same weight and targets |
| Detection.VoteIfOn | public/script.js:852-856 | `if (c) vote` appends a record only when the signal is present |
| Detection.CastPointer | public/script.js:811-820 | the pointer vote appends the pointer part of the table |
| Detection.CastApple | public/script.js:822-856 | the Apple checks append the Apple part of the table in source order |
| Detection.CastAndroid | public/script.js:865-880 | the Web NFC and related-apps checks append the Android part |
| Detection.CastDesktop | public/script.js:887-889 | the Serial, HID and USB votes append the desktop part |
| Detection.CastSize | public/script.js:891-899 | the size split appends the size part |
| Detection.CastGl | public/script.js:901-933 | the graphics tests on the lower-cased vendor and renderer, the mobile-GPU test as written, append the graphics part, or one `mark` without a context |
| Detection.CastTable | public/script.js:816-933 | the board's log grows by exactly the rule table, with scores kept consistent |
| Detection.Detect | public/script.js:789-1091 | a fresh board whose log is the rule table, then a tie-break record exactly when the top is shared, then the snapshot; the outcome is the expected winner and confidence over those scores |
| Detection.WinnerHasTopScore | public/script.js:940-1018 | the winner has the top score (or is Android by the HarmonyOS override); with a positive gap it is the ranking's winner and the only system at the top |
| Detection.DecideConfidence | public/script.js:1021-1042 | the confidence is 0 exactly when the top score is not positive; a tie at a positive top score gets 45 |
| Detection.RunConfidencePositive | public/script.js:816-820 | since the pointer vote always fires, the top score of a run is at least 2 and its confidence is a positive tier |
| Detection.TieRecordIffTie | public/script.js:999-1018 | the log has the tie-break record exactly when the top is shared, carrying the candidates and whether it resolved, and it ends with the snapshot |
| Detection.ExpectedConservation | public/script.js:799-802 | a run's six scores add up to the weight its fired checks cast |
| Detection.TouchOnlyTies | public/script.js:816-1042 | with only the touch-primary vote, Android, iOS and iPadOS tie at 2, the tie-break is consulted on exactly those three, and the confidence is 45 |
| Detection.PermissionOnlyTies | public/script.js:816-945 | with only the iOS permission vote on a fine-pointer device, iOS and iPadOS tie at 6 |
| Detection.PermissionOnlyIpad | public/script.js:974-1042 | in that tie an iPad user agent resolves the tie to iPadOS, at confidence 45 |
| Detection.QuietScore | public/script.js:816-933 | with only pointer and permission signals, a score is 2 for the pointer family, 6 for the permission vote, and 5 more for iOS from the size split on a touch device |
| Classifiers.OsInfoCases | public/script.js:187-200 | each answer of `getOSInfo` holds exactly when its test passes and every earlier one fails; `unknown` exactly when no keyword matches |
| Classifiers.AppleOsInfoIsAppleDevice | public/script.js:166-200 | every Apple answer of `getOSInfo` is also an Apple device for `isAppleDevice` |
| Classifiers.AndroidUaIsLinux | public/script.js:192-194 | an Android user agent contains `linux`, which is tested first, so `getOSInfo` answers Linux |
| Classifiers.MacIntelTouchIsApple | public/script.js:782 | `MacIntel` with more than one touch point is an Apple platform |
| Classifiers.MacIntelAloneIsNotApple | public/script.js:773-786 | `MacIntel` without touch or other Apple signals is not |
| Classifiers.ClientHintsOs | public/script.js:1558-1571 | the Client-Hints mapping never answers iPadOS and answers nothing without a platform |
| Classifiers.ClientHintsApiFirst | public/script.js:1558 | the header platform is ignored when the API reports one |
| Classifiers.ClientHintsMacos | public/script.js:1560-1566 | `macOS` maps to macOS, not through the earlier `ios` test |
| Classifiers.SupportInferenceRanges | public/script.js:1363-1407 | without WebAuthn nothing is inferred; without a platform authenticator only Windows, Linux or macOS; with one, never Linux |
| Classifiers.SupportIpadOnlyFromSafari | public/script.js:1368-1375 | iPadOS is inferred exactly for an iPhone/iPad/iPod Safari with a platform authenticator that names an iPad or reports `MacIntel` with touch |
| Classifiers.TransportInferenceRanges | public/script.js:1410-1469 | unknown transports infer nothing; hybrid alone gives Android or Windows; USB alone gives a desktop system |
| Classifiers.InternalAppleDecides | public/script.js:1419-1423 | an internal authenticator on an iPhone/iPad/iPod user agent decides the answer before any other transport |
| Classifiers.PasskeyCredentialOnlyAsFallback | public/script.js:1281-1340 | the credential's transports matter only when the support inference is silent on a device with a platform authenticator |
| Classifiers.DisablePathTest | public/script.js:3336 | the `/disablecanvas` test is subsumed by the bare `disablecanvas` test |
| Classifiers.CanvasDecision | public/script.js:3333-3371 | canvas is off exactly when the path asks for it, or the detected system is Apple, or nothing is detected and the platform looks like Apple's; whether advanced mode is active never changes the answer |
| Advanced.AdvancedPrefersPasskey | public/script.js:1666-1775 | the advanced answer is the passkey answer when present, else the Client-Hints answer, and the final system is that answer |
| Advanced.TamperingMeansConflict | public/script.js:1721-1775 | a tampered run carries on with a system other than the basic one, at confidence 25 and without a successful conclusion; an answer that agrees with the basic result is never tampered; an untampered run with both results carries on with the basic one |
| Advanced.ConfidenceLevels | public/script.js:1746-1775 | the confidence names its case: 25 exactly when tampered, 40 exactly for an untampered unsupported browser, 30 exactly when neither probe answered, at least 75 exactly when the conclusion succeeded |
| Advanced.ConfidenceGrowsWithEvidence | public/script.js:1746-1775 | outside tampering and unsupported browsers, more answers never lower the confidence, and a passkey answer always beats its absence |
| Advanced.UnsupportedCapsConfidence | public/script.js:1653-1775 | an unsupported browser is capped at 40, tampering always gives 25, and a successful conclusion means 75, 90 or 95 |
| Advanced.TargetDefaultsToAndroid | public/script.js:1837-1858 | the system carried on with is the advanced answer, or Android when there is none |
| Advanced.NoPreviousNoTamper | public/script.js:1721 | without a basic result, tampering is never flagged |
| Advanced.CanvasAfterAdvanced | public/script.js:1856-1864 | after advanced detection, canvas is off exactly when the path asks for it or the carried-on system is Apple |
| Advanced.AdvancedScoresLead | public/script.js:1789-1809 | every system has an advanced score: 8 for a lone passkey answer, 14 when Client Hints agrees, 10 against 6 on conflict, so the passkey answer strictly leads |
| Patterns.TargetsDistinct | public/script.js:3494-3505 | no font's target list names a system twice |
| Patterns.FontTargetsDistinct | public/script.js:3509-3510 | a font name gives a system at most one mention, and a name without an entry gives none |
| Patterns.DetectedFonts | public/script.js:3489-3491 | the detected fonts are exactly the names reported present |
| Patterns.PointsAppend | public/script.js:3508-3515 | font points are additive over concatenated font lists |
| Patterns.PointsBound | public/script.js:3508-3515 | with repeat-free target lists, a system gets at most one point per font |
| Patterns.PointsPositive | public/script.js:3508-3515 | a system gets a point exactly when some font points to it |
| Patterns.MentionsBound | public/script.js:3508-3515 | font detection gives a system at most one point per detected font |
| Patterns.PerformFontDetection | public/script.js:3487-3526 | the score map has a key exactly for the systems some detected font points to, each with its number of mentions; the four family flags are computed from the detected fonts |
| Patterns.AddTargets | public/script.js:3511-3513 | the inner loop adds one point per target of a font, creating missing entries |
| Patterns.TalliesNextFont | public/script.js:3508-3515 | after a font's targets are added, the map tallies one more font |
| Patterns.MentionedFontScores | public/script.js:3508-3515 | a detected font that points to a system gives it at least one point |
| Patterns.FontFlagsScore | public/script.js:3520-3525 | each family flag comes with a point for its system |
| Patterns.PerformMediaAnalysis | public/script.js:3530-3557 | the pattern map has a key exactly for the systems some supported codec favours, each with its points |
| Patterns.MediaFavoursMacos | public/script.js:3535-3557 | macOS never scores below another system; iOS and iPadOS score alike, and only through HEVC |
| Patterns.MediaMonotone | public/script.js:3535-3557 | supporting more codecs never lowers a system's points |
| Server.StripTrailingSlashes | server.js:55 | the result is the path without its trailing `/` characters |
| Server.Basename | server.js:55 | the last segment is a `/`-free suffix that follows a `/` or starts the path |
| Server.LastDot | server.js:55 | the position of the last `.`, or none exactly when there is no `.` |
| Server.Extname | server.js:55 | the extension is empty or starts with its only `.` and has no `/`; it is a suffix of the path |
| Server.ExtnameOfFileInDir | server.js:55 | a file inside a directory has the extension of its own name |
| Server.ExtnameOfName | server.js:55 | a plain name whose last `.` is not its first character has the extension from that `.` on |
| Server.ContentTypeFallback | server.js:56-72 | the type is `application/octet-stream` exactly when the extension is none of the seven known ones, case-sensitively, and `image/jpeg` exactly for `.jpg` and `.jpeg` |
| Server.IndexIsHtml | server.js:54-58 | `index.html` is served as `text/html` |
| Server.UpperCaseExtensionUnknown | server.js:54-72 | `photo.JPG` gets the fallback type |
| Server.ContentTypeInDir | server.js:54-73 | inside any directory a file gets the MIME type of its own name |
| Server.StripQuotes | server.js:86 | removing the quotes removes at most two characters and leaves an infix of the value |
| Server.CleanHint | server.js:83-89 | a missing header stays missing and a sent one stays a string |
| Server.CleanQuoted | server.js:83-89 | a quoted value comes back without its quotes |
| Server.CleanIsIdentityOnClean | server.js:83-89 | a value with no surrounding blanks or quotes comes back unchanged |
| Strings.TrimIsInfix | server.js:86 | `trim` returns an infix of its input |
| Strings.TrimOfTrimmed | server.js:86 | `trim` leaves a value with no blank ends unchanged |
| Server.OrElse | server.js:105-114 | the JavaScript or-operator on header values: `a` when it is a non-empty string, else `b` |
| Server.ExtractClientHints | server.js:98-130 | mobile exactly for `?1`; the detected system is the cleaned platform or `Unknown`; high-entropy data exactly when one of the five high-entropy hints is non-empty; the user agent falls back from `sec-ch-ua` to `user-agent` |
| Server.LowEntropyRequest | server.js:98-130 | a browser sending only low-entropy hints with a quoted platform is reported by the bare platform name, as not mobile and without high-entropy data |
| Server.DetectedOsNonEmpty | server.js:119 | the detected system name is never empty; a missing or empty platform reads as `Unknown` |
| Server.Search | server.js:26-49 | one pass of the search returns the first accepted address in enumeration order |
| Server.GetLocalIpv4 | server.js:23-52 | the announced address is the first preferred external IPv4 address, else the first external IPv4 address, else `127.0.0.1` |
| Server.FirstOfSound | server.js:26-49 | a pass finds something exactly when some entry is accepted, and what it finds is an accepted entry's address |
| Server.LocalIpv4Choice | server.js:23-52 | the announced address belongs to a preferred interface whenever one has an external IPv4 address; it is external whenever one exists; the loopback address is used only when none exists |
| Server.SiblingPassesPrefixTest | server.js:265 | the written prefix test accepts `/srv/public-secret/key.json` for the public directory `/srv/public` although it lies outside |
| Server.SiblingIsServed | server.js:262-276 | the request `/../public-secret/key.json`, joined into the sibling directory, is served as `application/json` by the route as written and forbidden by the intended one |
| Server.InsidePublicSound | server.js:265 | the corrected test accepts no more than the written one, and only paths below the directory |
| Server.ApiRoutesComeFirst | server.js:179-258 | the server answers a request itself exactly for the hints path (any method) and the control path with POST or OPTIONS, and those answers do not depend on the public directory, on path joining or on the containment test |
| Server.RootServesIndex | server.js:262-276 | `/` is served as the public directory's `index.html`, as `text/html`, under either containment test |
| Server.ControlGetFallsThrough | server.js:179-276 | any other method on the control path falls through to a file lookup of that path, typed `application/octet-stream` |
| Server.StaticStaysInside | server.js:262-269 | under the intended test a static route names only the public directory itself or a path below it |
| Server.IntendedOnlyForbidsMore | server.js:262-269 | the intended test changes a route only by forbidding a file that the written test serves from outside the public directory |
| Server.ControlReplyShape | server.js:185-219 | a parsed body gets 200 with success and its own `action` and `enabled`, the message saying enabled exactly when `enabled` is truthy; anything unparsable gets 400 without success |

## Left out

- DOM updates, audio, animation, pop-ups and the audit records' title and detail text. A record keeps its fired flag, rule, weight and targets.
- Drawing the WebGL and canvas fingerprints, and the probes themselves (`CSS.supports`, `matchMedia`, `checkNFCCapabilities`, `detectFonts`, `checkMediaCapabilities`, `getWebGLInfo`, `isUserVerifyingPlatformAuthenticatorAvailable`, the credential request): their answers are parameters.
- Asynchronous sequencing, the 3-second timeout and exceptions inside the probes. A failed or timed-out credential request is `None`.
- Strings.Lower: only ASCII letters are lower-cased, whereas JavaScript `toLowerCase` also folds other Unicode letters.
- The short screen side is given as the boolean "at least 600 CSS pixels"; the division by the device pixel ratio is not modelled.
- Confidences.BarWidth: scores are integers, so the floating-point division is replaced by exact integer rounding.
- Confidences.EnhancedConfidence: only the final clamp of `enhancedDetect` is modelled. The eight `perform*DetectionAnalysis` sub-analyses that feed its table are not part of this model, nor are `performPerformanceAnalysis` and `performSystemInfoDetectionAnalysis`.
- TieBreak.Chain: `pick('harmonyos')` is omitted because no candidate has that id, so it never hits. The `try/catch` around the chain is not modelled, since nothing in it can throw for string inputs.
- Server.RouteOf: `path.join` is a parameter, and the body of the chosen route is not produced. Reading the file (200, 404, 500), the response headers and the request log are I/O.
- Server.GetLocalIpv4: the system's interface table is a parameter, in its own enumeration order.
- Server.ControlReplyOf: JSON numbers are integers and the timestamp is left out; the body's text and its parsing are a parameter.
- Patterns.PerformFontDetection: font names are those of the page's fixed list; property names inherited from `Object.prototype` are not modelled as mapping entries.
- Classifiers.ShouldDisableCanvas: the earlier, shadowed declaration at public/script.js:280 is not modelled, because the later one replaces it.
- Classifiers.PasskeyOs: the `window.PublicKeyCredential` check is folded into the `supported` flag.
- Advanced reconciliation: `window.detectedOSType` is represented as an `Os` value, not the string the page stores.

## Findings

| source | as written | input that shows it | evidently intended | confidence | as-written member | corrected member |
|---|---|---|---|---|---|---|
| public/script.js:924 | `r.includes('Maleoon')` on a renderer string already lower-cased, so this test can never be true | renderer `Maleoon 910` on a touch device gets no Android vote | `r.includes('maleoon')`, lower case like the other GPU names | not executed | Scoring.MaleoonCounterexample | Scoring.MaleoonRendererVotesAndroid |
| server.js:265 | `fullPath.startsWith(PUBLIC_DIR)` is a plain string prefix test | a request for `/../public-secret/key.json` resolves to the sibling directory `public-secret`, which passes the test | accept only the public directory itself or paths below `PUBLIC_DIR + '/'` | not executed | Server.SiblingIsServed | Server.StaticStaysInside |

The detector and the server are modelled as written: `Scoring.GlFlagsOf`,
and through it `Detection.Detect`, use the written test
`Scoring.MobileGpuAsWritten`, and `Server.RouteOf` uses the written prefix test
`Server.InsidePublicAsWritten`. The corrected versions are
`Scoring.GlFlagsIntended` (with `Scoring.MobileGpu`) and
`Server.RouteOfIntended` (with `Server.InsidePublic`), and the lemmas named in
the corrected column are proved about them.
