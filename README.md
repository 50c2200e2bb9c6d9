# XR NODE networking core, modelled in Dafny

XR NODE is a networking app for events. A participant scans another participant's QR badge. The app looks up that profile and scores how well the two match. It shows the tier, a colour and the reasons for the score. A handshake gesture held in XR confirms the connection, and the connection is stored. This project models the logic behind those steps and proves what it promises.

- **Matching engine** (`matching.dfy`, module `Matching`). It has five bounded sub-scores:
  - skills, by case-insensitive containment;
  - interests, by a shared word of more than three letters;
  - roles, by a keyword-pair table tried in order;
  - experience, by buckets of the difference in years;
  - location, by the same place or the same region after the last comma.

  Their sum is the score, always between 7 and 100, so the final clamp never changes it. Fixed thresholds (75, 50) give the tier. The reasons are listed in a fixed order. `AnalyzeMatch` accumulates the score and the reasons step by step, as the engine does, and is proved equal to the functional definitions. `CalculateRoleComplementarity` is the pair-by-pair loop, proved equal to `RoleScore`.
- **Connection store** (`connections.dfy`, module `ConnectionService`). The stored list is the `connections` field of `ConnectionStore`. Its operations are:
  - save, which updates the existing entry for the same profile or appends one;
  - lookups by profile;
  - removal by connection id;
  - appreciation counting;
  - count and clear;
  - views sorted by score and by date.
- **QR payloads**. There are two rules:
  - The scanner service (`qr_scanner.dfy`, module `QrScanner`) takes the text after the `XRNODE:` prefix, or else the whole payload, and trims it. Its detection loop ignores a repeated payload for 2000 ms; this is modelled as `BarcodeScanner.DetectFrame`, one call per frame.
  - The XR app's profile service (`xr_profile_service.dfy`, module `XrProfileService`) takes the text after the prefix exactly as it is, or else accepts only `p` followed by three digits.
- **Profile lookup and search** in both apps (`xr_profile_service.dfy`, `profile_service.dfy`). The participant database is a parameter. The two searches test the same fields in a different order, and they are proved to return the same list.
- **Handshake state machine** (`handshake.dfy`, module `Handshake`). The class `Handshake` holds the module-level state: gesture state, pending profile and match result, and the confirmed connections. `HandshakeSystem.Update` is the per-frame hold timer. The connection is confirmed once both hands have stayed close for 1500 ms while a profile is pending and the gesture is not yet complete.
- **Shared pieces.**
  - `types.dfy` holds the records.
  - `constants.dfy` holds the QR prefix and the tier thresholds.
  - `text.dfy` holds ASCII lower-casing, substring containment, trimming, splitting and decimal printing, with their own lemmas.
  - `sequences.dfy` holds subsequences.

The clock (`Date.now()`, `new Date()`) is a `now` parameter in milliseconds. Where an operation reads the clock more than once, all the reads give the same `now`. `null` results and the `-1` of `findIndex` are `Option` values. Hand tracking is abstracted to a `HandFrame`. A frame records whether an XR session is running, which hands were seen, and whether they are closer than 15 cm.

Behaviour of the code worth noting:
- **Role score.** "XR Developer" against "Product Designer" scores 20 for roles, because the first pair of the table matches "developer" with "designer" (`Matching.RoleScoreDeveloperDesigner`).
- **Symmetry.** The total score is not symmetric. Skills and interests are counted over the first profile's lists, duplicates included (`Matching.TotalScoreAsymmetric`). Only the role, experience and location sub-scores are symmetric.
- **Profile type.** The web app's profile service filters on `skills`, but the web app's own `Profile` type has no such field. Both services are modelled over the XR app's `Profile` type, which has it.

## Model

| member | source | states |
|---|---|---|
| Text.Lower | xrnode-iwsd/src/services/matchingService.ts:77-78 | lower-casing keeps the length and lower-cases each character (ASCII) |
| Text.ContainsAt | xrnode-iwsd/src/services/matchingService.ts:81 | an occurrence of the needle at any offset makes `includes` hold |
| Text.ContainsOffset | xrnode-iwsd/src/services/matchingService.ts:81 | when `includes` holds, the needle occurs at some offset |
| Text.ContainsIffOccurs | xrnode-iwsd/src/services/matchingService.ts:81 | `includes` holds exactly when the needle occurs at some offset |
| Text.NotContains | xrnode-iwsd/src/services/matchingService.ts:118 | a longer string, or one with a character the haystack lacks, is not included |
| Text.Trim | services/qrScannerService.ts:69-72 | the result has no whitespace at either end, is a contiguous part of the input, and is empty exactly when the input is all whitespace |
| Text.TrimTrimmed | services/qrScannerService.ts:69-72 | trimming a string with no surrounding whitespace returns it unchanged |
| Text.SplitJoin | xrnode-iwsd/src/services/matchingService.ts:159-160 | splitting on a separator loses nothing: joining the pieces gives the input back |
| Text.LastPieceIsSuffix | xrnode-iwsd/src/services/matchingService.ts:159-160 | the last piece of a split is the suffix after the last separator, contains no separator, and is the whole input when there is no separator |
| Text.NatToStringValue | xrnode-iwsd/src/services/matchingService.ts:23 | the printed count is all digits and reads back as the count |
| Text.NatToStringInjective | xrnode-iwsd/src/services/matchingService.ts:23 | different counts print differently |
| Matching.CountShared | xrnode-iwsd/src/services/matchingService.ts:80-98 | the filter-and-count of the first list never exceeds that list's length |
| Matching.CountSharedZero | xrnode-iwsd/src/services/matchingService.ts:80-82 | the overlap count is 0 exactly when no entry of the first list relates to an entry of the second |
| Matching.CountSharedAll | xrnode-iwsd/src/services/matchingService.ts:80-82 | the overlap count equals the first list's length exactly when every entry relates |
| Matching.CountSharedAppend | xrnode-iwsd/src/services/matchingService.ts:80-82 | the filter-and-count adds up over a concatenation of the first list |
| Matching.SkillOverlap | xrnode-iwsd/src/services/matchingService.ts:76-83 | the skill overlap is at most the number of the first profile's skills |
| Matching.InterestOverlap | xrnode-iwsd/src/services/matchingService.ts:88-99 | the interest overlap is at most the number of the first profile's interests |
| Matching.SkillOverlapSelf | xrnode-iwsd/src/services/matchingService.ts:76-83 | a skill list overlaps itself in every entry |
| Matching.OverlapEmpty | xrnode-iwsd/src/services/matchingService.ts:76-99 | an empty list on either side gives a skill and an interest overlap of 0 |
| Matching.SkillOverlapAsymmetric | xrnode-iwsd/src/services/matchingService.ts:80-82 | duplicates count: ["React","React"] against ["React"] overlaps 2, the other way round 1 |
| Matching.SkillScore | xrnode-iwsd/src/services/matchingService.ts:19-21 | the skill score lies in 0..30 and is 0 exactly when no skill is shared |
| Matching.InterestScore | xrnode-iwsd/src/services/matchingService.ts:27-29 | the interest score lies in 0..25 and is 0 exactly when no interest is shared |
| Matching.RoleScore | xrnode-iwsd/src/services/matchingService.ts:104-135 | the role score is 5, 12 or 20 |
| Matching.CalculateRoleComplementarity | xrnode-iwsd/src/services/matchingService.ts:104-135 | the loop over the pair table with its early returns computes exactly the role score: 12 for containment, else 20 for the first matching pair, else 5 |
| Matching.RoleScoreSymmetric | xrnode-iwsd/src/services/matchingService.ts:118-131 | the role score does not depend on the order of the roles |
| Matching.RoleScoreSameFamily | xrnode-iwsd/src/services/matchingService.ts:117-120 | equal roles (up to case) and an empty role score 12 |
| Matching.RoleScoreDeveloperDesigner | xrnode-iwsd/src/services/matchingService.ts:105-131 | "XR Developer" against "Product Designer" scores 20 |
| Matching.ExperienceCompatibility | xrnode-iwsd/src/services/matchingService.ts:140-147 | the experience score is 15, 10, 5 or 2, and at least 10 exactly when the years differ by at most 4 |
| Matching.ExperienceSymmetric | xrnode-iwsd/src/services/matchingService.ts:140-147 | the experience score is symmetric |
| Matching.ExperienceNonIncreasing | xrnode-iwsd/src/services/matchingService.ts:140-147 | a larger difference in years never scores more |
| Matching.LocationBonus | xrnode-iwsd/src/services/matchingService.ts:152-167 | the bonus is 0, 7 or 10, and 10 exactly when the locations are equal up to case |
| Matching.LocationScore | xrnode-iwsd/src/services/matchingService.ts:52-58 | the location contributes 0..10, and more than 0 only when both profiles have a non-empty location |
| Matching.LocationScoreSymmetric | xrnode-iwsd/src/services/matchingService.ts:152-167 | the location contribution is symmetric |
| Matching.TotalScore | xrnode-iwsd/src/services/matchingService.ts:15-61 | the sum of the sub-scores lies in 7..100, so the clamp never changes it |
| Matching.MinimumScore | xrnode-iwsd/src/services/matchingService.ts:15-58 | the score is 7 exactly when nothing is shared, the roles score 5, the years differ by more than 6 and the location adds nothing |
| Matching.IdenticalProfiles | xrnode-iwsd/src/services/matchingService.ts:15-58 | a profile against itself gets every skill, 12 for the role, 15 for experience and 10 for a location |
| Matching.TotalScoreAsymmetric | xrnode-iwsd/src/services/matchingService.ts:19-21 | swapping the profiles can change the total: with one skill repeated on one side the totals differ by 10 |
| Matching.GetMatchLevel | xrnode-iwsd/src/services/matchingService.ts:172-179 | EXCELLENT exactly from 75, GOOD exactly from 50 below 75, LOW exactly below 50 |
| Matching.MatchLevelMonotone | xrnode-iwsd/src/services/matchingService.ts:172-179 | a higher score never gets a worse tier |
| Matching.GetAuraColor | xrnode-iwsd/src/services/matchingService.ts:184-195 | each tier gets its colour from the aura colour table: green for EXCELLENT, yellow for GOOD, red for LOW, each a `#` and six hex digits |
| Matching.GetMatchLevelLabel | xrnode-iwsd/src/services/matchingService.ts:200-211 | every tier's label ends in " Match" |
| Matching.TierPresentationDistinct | xrnode-iwsd/src/services/matchingService.ts:184-211 | the three tiers get three different colours and three different labels |
| Matching.Reasons | xrnode-iwsd/src/services/matchingService.ts:16-57 | at most five reasons are given |
| Matching.ReasonsIff | xrnode-iwsd/src/services/matchingService.ts:22-57 | each reason is present exactly when its factor qualifies: a shared skill, a shared interest, role score 20, years at most 4 apart, a location score of at least 7 |
| Matching.SkillVsInterest | xrnode-iwsd/src/services/matchingService.ts:23-31 | a skill reason is never an interest reason, whatever the counts |
| Matching.AnalyzeMatch | xrnode-iwsd/src/services/matchingService.ts:8-71 | the step-by-step analysis returns the total score (between 7 and 100), its tier and the reasons in the fixed order |
| ConnectionService.IndexOfProfile | services/connectionService.ts:25 | the index found is that of the first connection to the profile, and there is none exactly when no connection is to it |
| ConnectionService.WithoutConnection | services/connectionService.ts:79-83 | removal keeps, in order, exactly the connections with a different id, every copy of each, and changes nothing when no id matches |
| ConnectionService.SortDescending | services/connectionService.ts:111-122 | the sorted view is a permutation of the list with a non-increasing key |
| ConnectionService.ConnectionStore.constructor | services/connectionService.ts:44-47 | nothing stored yet reads as the empty list |
| ConnectionService.ConnectionStore.SaveConnection | services/connectionService.ts:13-39 | a new profile appends the fresh connection; a known one keeps the length and changes only the first matching entry's score and time; afterwards the profile is connected with the given score; unique profile ids stay unique; the fresh connection is returned |
| ConnectionService.ConnectionStore.IsConnected | services/connectionService.ts:63-66 | a profile is connected exactly when the first-match search over the stored list finds a connection to it |
| ConnectionService.ConnectionStore.GetConnectionByProfileId | services/connectionService.ts:63-74 | a connection is found exactly when the profile is connected, and it is the first one to that profile |
| ConnectionService.ConnectionStore.RemoveConnection | services/connectionService.ts:79-83 | the stored list becomes the list without the connections with that id |
| ConnectionService.ConnectionStore.SendAppreciation | services/connectionService.ts:88-99 | the first connection to the profile gains exactly one appreciation and nothing else changes; with none, nothing is returned and nothing changes |
| ConnectionService.ConnectionStore.GetConnectionCount | services/connectionService.ts:104-106 | the count is 0 exactly when no profile is connected |
| ConnectionService.ConnectionStore.GetConnectionsSortedByScore | services/connectionService.ts:111-113 | a permutation of the stored list with non-increasing scores |
| ConnectionService.ConnectionStore.GetConnectionsSortedByDate | services/connectionService.ts:118-122 | a permutation of the stored list with non-increasing timestamps |
| ConnectionService.ConnectionStore.ClearAllConnections | services/connectionService.ts:127-129 | the store is empty and its count is 0 |
| ConnectionService.ResaveKeepsAppreciation | services/connectionService.ts:25-32 | saving a profile again leaves one connection, with the new score and the appreciation already received |
| QrScanner.ExtractParticipantId | services/qrScannerService.ts:66-73 | the candidate id has no surrounding whitespace and is a contiguous part of the payload |
| QrScanner.ParseQRCode | services/qrScannerService.ts:61-82 | the empty payload gives nothing; a prefixed payload gives the trimmed remainder, an unprefixed one the trimmed payload, and nothing exactly when that is all whitespace; a result carries a non-empty trimmed id, the scan time and the unchanged payload |
| QrScanner.PrefixedRoundTrip | services/qrScannerService.ts:68-69 | the prefix followed by a non-empty trimmed id reads back as that id |
| QrScanner.RawRoundTrip | services/qrScannerService.ts:70-73 | an unprefixed, non-empty trimmed id is accepted as it is |
| QrScanner.ReencodeStable | services/qrScannerService.ts:68-73 | the id read from any payload, re-encoded with the prefix, reads back as itself |
| QrScanner.LeadingSpace | services/qrScannerService.ts:68-73 | a leading space defeats the prefix test, so a prefix after it stays in the id |
| QrScanner.LeadingSpaceExample | services/qrScannerService.ts:70-73 | " XRNODE:p001" yields the id "XRNODE:p001" |
| QrScanner.ShouldProcess | services/qrScannerService.ts:131 | a payload that differs from the last one is always handled; the same payload again is handled exactly when more than 2000 ms have passed |
| QrScanner.BarcodeScanner.constructor | services/qrScannerService.ts:116-117 | a scan starts active with no last code and time 0 |
| QrScanner.BarcodeScanner.Stop | services/qrScannerService.ts:43-49 | scanning is switched off and the debounce memory is kept |
| QrScanner.BarcodeScanner.DetectFrame | services/qrScannerService.ts:120-139 | an inactive scanner or an empty frame does nothing; a payload is handled exactly when it differs from the last one or the last one is more than 2000 ms old; a handled payload becomes the last one, even if it does not parse, and its parse is reported |
| QrScanner.DebounceExample | services/qrScannerService.ts:131-139 | a payload is reported, ignored 1500 ms later, and reported again 2001 ms after the first sighting |
| XrProfileService.GetProfileById | xrnode-iwsd/src/services/profileService.ts:12-15 | the first profile with the id, and nothing exactly when there is none |
| XrProfileService.ParseQRCode | xrnode-iwsd/src/services/profileService.ts:20-34 | the empty payload gives nothing; a prefixed payload always gives the remainder; otherwise a payload is accepted, unchanged, exactly when it is `p` and three digits |
| XrProfileService.PrefixRoundTrip | xrnode-iwsd/src/services/profileService.ts:24-26 | the prefix followed by any text reads back as exactly that text, untrimmed and possibly empty |
| XrProfileService.PlainIdAccepted | xrnode-iwsd/src/services/profileService.ts:29-31 | a bare `p` and three digits is returned unchanged |
| XrProfileService.ParsersAgree | xrnode-iwsd/src/services/profileService.ts:20-34 | both QR rules read the same id from a bare participant id and from a prefixed id without surrounding whitespace |
| XrProfileService.ParsersDisagreeOnSpace | xrnode-iwsd/src/services/profileService.ts:24-26 | after the prefix this rule keeps a space that the scanner's rule trims |
| XrProfileService.GetAllParticipants | xrnode-iwsd/src/services/profileService.ts:39-41 | the list equals the database |
| XrProfileService.SearchParticipants | xrnode-iwsd/src/services/profileService.ts:46-55 | the result is a subsequence of the database holding exactly the profiles whose name, a skill, an interest, the role or the company contains the query, ignoring case, with every copy of each such profile |
| XrProfileService.SearchEmptyQuery | xrnode-iwsd/src/services/profileService.ts:46-55 | the empty query returns the whole database |
| XrProfileService.SearchBounded | xrnode-iwsd/src/services/profileService.ts:48-54 | a search never returns more profiles than the database holds |
| ProfileService.GetProfileById | services/profileService.ts:10-16 | the first profile with the id, and nothing exactly when there is none |
| ProfileService.GetAllParticipants | services/profileService.ts:21-24 | the list equals the database |
| ProfileService.SearchParticipants | services/profileService.ts:29-40 | a subsequence of the database, no longer than it, holding exactly the profiles whose name, role, company, a skill or an interest contains the query, ignoring case, with every copy of each such profile |
| ProfileService.SearchAgreesWithXrApp | services/profileService.ts:29-40 | the web app's search returns the same list as the XR app's for every database and query |
| ProfileService.SearchEmptyQuery | services/profileService.ts:29-40 | the empty query returns the whole database |
| Handshake.GestureProgress | xrnode-iwsd/src/handshake.ts:196-197 | progress is proportional to the time held, never above 100, not negative for a non-negative time, and 100 exactly once the hold time is reached |
| Handshake.GestureProgressMonotone | xrnode-iwsd/src/handshake.ts:197 | holding longer never lowers the progress |
| Handshake.HoldStart | xrnode-iwsd/src/handshake.ts:192-194 | a timer that is unset (never started or at 0) starts now; a running one keeps its start |
| Handshake.Handshake.constructor | xrnode-iwsd/src/handshake.ts:21-34 | no hands, no progress, nothing pending, no connections |
| Handshake.Handshake.GetConnections | xrnode-iwsd/src/handshake.ts:50-52 | a copy equal to the confirmed connections |
| Handshake.Handshake.SetPendingConnection | xrnode-iwsd/src/handshake.ts:57-63 | the profile and match result become pending, progress is 0 and the gesture is not complete; the connections are unchanged |
| Handshake.Handshake.ConfirmConnection | xrnode-iwsd/src/handshake.ts:68-98 | with nothing pending nothing changes and nothing is returned; otherwise exactly one connection with the pending profile and score and no appreciations is appended and returned, the pending pair is cleared and the gesture is complete |
| Handshake.ConfirmTwice | xrnode-iwsd/src/handshake.ts:68-92 | two confirmations with nothing set pending in between add at most one connection, and the second adds none |
| Handshake.HandshakeSystem.constructor | xrnode-iwsd/src/handshake.ts:141 | the hold timer starts unset |
| Handshake.HandshakeSystem.Update | xrnode-iwsd/src/handshake.ts:148-213 | a connection is added, exactly one, only in the frame where a session runs, both hands are close, a profile and score are pending, the gesture is not complete and the hold has lasted 1500 ms; any frame with a hand missing, hands apart or nothing pending stops the timer; with both hands seen, progress then drops to 0 unless the gesture is complete |
| Handshake.HoldConfirms | xrnode-iwsd/src/handshake.ts:186-202 | holding hands close from 1000 ms to 2500 ms confirms the pending connection once, at the second frame |
| Handshake.InterruptedHoldRestarts | xrnode-iwsd/src/handshake.ts:203-208 | letting go in between restarts the hold, so 1500 ms after the first touch nothing is confirmed yet |

## Left out

- Simulated delays: the awaited timeouts of the matching engine and of the web app's profile service only imitate a backend. The operations are synchronous here.
- Persistence: localStorage and JSON in the connection store and the handshake module (`persistConnections`, `saveConnections`, `loadConnections`) and `exportConnections` are outside the model. A stored list that is missing or unreadable reads as empty, the state the store's constructor gives.
- Connection callbacks (`onConnectionConfirmed`) and console logging are not modelled, and neither is `getHandshakeState`, which only copies the gesture state.
- Camera, detection and frame loops are I/O and scheduling plumbing, so they are not modelled. This covers getUserMedia, BarcodeDetector, `requestAnimationFrame`, the simulated scanning fallback and the permission queries. One detected frame is one call of `BarcodeScanner.DetectFrame`.
- Hand tracking geometry is abstracted to booleans in `HandFrame`: wrist poses, positions and the distance against 15 cm. The fields for hand positions only record whether each hand was seen.
- `validateProfile` in both profile services is left out. It checks the types of an untyped value at run time, which has no counterpart over Dafny's typed records.
- The `default` branches of `getAuraColor` and `getMatchLevelLabel` cannot be reached with a three-valued `MatchLevel`, so they are not modelled.
- Text is simplified:
  - `toLowerCase` is ASCII lower-casing;
  - `trim` strips ASCII whitespace (space, tab, line feed, vertical tab, form feed, carriage return);
  - Unicode case mapping and the other Unicode spaces are not modelled;
  - a string's length counts Unicode scalar values, while JavaScript's `length` counts UTF-16 code units, so a character outside the Basic Multilingual Plane counts once here and twice in the word-length test `w1.length > 3` of the interest overlap.
- `experienceYears` is an integer. Fractional and NaN values are not modelled, and neither is the `Math.round` of the final clamp, which never changes an integer sum.
- Handshake.GestureProgress: the progress is exact real arithmetic, not IEEE double division.
- ConnectionService.SortDescending: the contract proves order and permutation but not stability. The insertion sort keeps equal keys in list order, as the stable `Array.prototype.sort` does, but no lemma states this.
- Handshake.HandshakeSystem.Update: the four clock reads of one frame share one `now`. They are the timer start, the elapsed time, the id of a confirmed connection and its `connectedAt`.
- ConnectionService.ConnectionStore.SaveConnection: `Date.now()` and `new Date()` share one `now`, as do the connection id and `connectedAt`.
