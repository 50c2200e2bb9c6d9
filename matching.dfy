/**
 * The profile-matching engine: five bounded sub-scores (skills, interests,
 * roles, experience, location) whose sum is the match score, the tier that
 * fixed thresholds assign to a score, and the reasons shown beside it.
 */
module Matching {
  import opened Types
  import Constants
  import Text

  function Min(x: int, y: int): int { if x <= y then x else y }
  function Max(x: int, y: int): int { if x >= y then x else y }
  function Abs(x: int): nat { if x < 0 then -x else x }

  // ------------------------------------------------------------ overlap

  /** `x` relates to at least one entry of `ys`. */
  predicate SharedWith(x: string, ys: seq<string>, related: (string, string) -> bool) {
    exists y :: y in ys && related(x, y)
  }

  /** The number of entries of `xs`, duplicates included, that relate to some entry of `ys`. */
  function CountShared(xs: seq<string>, ys: seq<string>, related: (string, string) -> bool): (k: nat)
    ensures k <= |xs|
    decreases |xs|
  {
    if xs == [] then 0
    else (if SharedWith(xs[0], ys, related) then 1 else 0) + CountShared(xs[1..], ys, related)
  }

  /** No entry is shared exactly when the count is zero. */
  lemma {:induction false} CountSharedZero(xs: seq<string>, ys: seq<string>, related: (string, string) -> bool)
    ensures CountShared(xs, ys, related) == 0 <==> forall i :: 0 <= i < |xs| ==> !SharedWith(xs[i], ys, related)
    decreases |xs|
  {
    if xs != [] {
      CountSharedZero(xs[1..], ys, related);
      assert forall i :: 1 <= i < |xs| ==> xs[i] == xs[1..][i - 1];
    }
  }

  /** Every entry is shared exactly when the count is the length of the list. */
  lemma {:induction false} CountSharedAll(xs: seq<string>, ys: seq<string>, related: (string, string) -> bool)
    ensures CountShared(xs, ys, related) == |xs| <==> forall i :: 0 <= i < |xs| ==> SharedWith(xs[i], ys, related)
    decreases |xs|
  {
    if xs != [] {
      CountSharedAll(xs[1..], ys, related);
      assert forall i :: 1 <= i < |xs| ==> xs[i] == xs[1..][i - 1];
    }
  }

  /** The count over a concatenation is the sum of the counts. */
  lemma {:induction false} CountSharedAppend(xs: seq<string>, zs: seq<string>, ys: seq<string>, related: (string, string) -> bool)
    ensures CountShared(xs + zs, ys, related) == CountShared(xs, ys, related) + CountShared(zs, ys, related)
    decreases |xs|
  {
    if xs == [] {
      assert xs + zs == zs;
    } else {
      assert (xs + zs)[1..] == xs[1..] + zs;
      CountSharedAppend(xs[1..], zs, ys, related);
    }
  }

  /** Two skills relate when, lower-cased, either contains the other. */
  predicate SkillsRelated(skill1: string, skill2: string) {
    var s, s2 := Text.Lower(skill1), Text.Lower(skill2);
    Text.Contains(s2, s) || Text.Contains(s, s2)
  }

  /** The space-separated words of a lower-cased interest phrase. */
  function Words(interest: string): seq<string> {
    Text.Split(Text.Lower(interest), ' ')
  }

  /** Two interests relate when they share a word longer than three characters. */
  predicate InterestsRelated(interest1: string, interest2: string) {
    var words1, words2 := Words(interest1), Words(interest2);
    exists w :: w in words1 && |w| > 3 && w in words2
  }

  /** The skill overlap: entries of `skills1` related to some entry of `skills2`. */
  function SkillOverlap(skills1: seq<string>, skills2: seq<string>): (k: nat)
    ensures k <= |skills1|
  {
    CountShared(skills1, skills2, SkillsRelated)
  }

  /** The interest overlap: entries of `interests1` sharing a long word with some entry of `interests2`. */
  function InterestOverlap(interests1: seq<string>, interests2: seq<string>): (j: nat)
    ensures j <= |interests1|
  {
    CountShared(interests1, interests2, InterestsRelated)
  }

  /** Every skill contains itself, so a skill list overlaps itself completely. */
  lemma SkillOverlapSelf(skills: seq<string>)
    ensures SkillOverlap(skills, skills) == |skills|
  {
    forall i | 0 <= i < |skills| ensures SharedWith(skills[i], skills, SkillsRelated) {
      Text.ContainsSelf(Text.Lower(skills[i]));
      assert SkillsRelated(skills[i], skills[i]);
    }
    CountSharedAll(skills, skills, SkillsRelated);
  }

  /** Nothing overlaps an empty list, and an empty list overlaps nothing. */
  lemma OverlapEmpty(xs: seq<string>)
    ensures SkillOverlap(xs, []) == 0 && SkillOverlap([], xs) == 0
    ensures InterestOverlap(xs, []) == 0 && InterestOverlap([], xs) == 0
  {
    CountSharedZero(xs, [], SkillsRelated);
    CountSharedZero(xs, [], InterestsRelated);
  }

  /**
   * The skill overlap counts over the first list only, so it is not symmetric:
   * a skill listed twice on one side is counted twice from that side.
   */
  lemma SkillOverlapAsymmetric()
    ensures SkillOverlap(["React", "React"], ["React"]) == 2
    ensures SkillOverlap(["React"], ["React", "React"]) == 1
  {
    SkillOverlapSelf(["React"]);
    assert SkillsRelated("React", "React") by {
      Text.ContainsSelf(Text.Lower("React"));
    }
    assert SharedWith("React", ["React"], SkillsRelated);
    assert ["React", "React"][1..] == ["React"];
  }

  // ---------------------------------------------------------- sub-scores

  /** 10 points per shared skill, at most 30. */
  function SkillScore(skills1: seq<string>, skills2: seq<string>): (r: int)
    ensures 0 <= r <= 30
    ensures r == 0 <==> SkillOverlap(skills1, skills2) == 0
  {
    Min(SkillOverlap(skills1, skills2) * 10, 30)
  }

  /** 8 points per shared interest, at most 25. */
  function InterestScore(interests1: seq<string>, interests2: seq<string>): (r: int)
    ensures 0 <= r <= 25
    ensures r == 0 <==> InterestOverlap(interests1, interests2) == 0
  {
    Min(InterestOverlap(interests1, interests2) * 8, 25)
  }

  /** Two keyword groups whose members, found in two roles, make the roles complementary. */
  datatype KeywordPair = KeywordPair(group1: seq<string>, group2: seq<string>)

  /** The complementary keyword groups, in the order they are tried. */
  const ComplementaryPairs: seq<KeywordPair> := [
    KeywordPair(["developer", "engineer"], ["designer", "ux"]),
    KeywordPair(["developer", "engineer"], ["product", "manager"]),
    KeywordPair(["data", "analyst"], ["developer", "engineer"]),
    KeywordPair(["ai", "ml"], ["developer", "engineer"]),
    KeywordPair(["devops"], ["developer", "engineer"]),
    KeywordPair(["project", "manager"], ["developer", "engineer"])
  ]

  /** The (lower-cased) role mentions some keyword of the group. */
  predicate InGroup(role: string, group: seq<string>) {
    exists k :: k in group && Text.Contains(role, k)
  }

  /** One role falls in one group of the pair and the other role in the other group. */
  predicate PairMatches(pair: KeywordPair, r1: string, r2: string) {
    (InGroup(r1, pair.group1) && InGroup(r2, pair.group2)) ||
    (InGroup(r1, pair.group2) && InGroup(r2, pair.group1))
  }

  /** One (lower-cased) role contains the other. */
  predicate SameRoleFamily(r1: string, r2: string) {
    Text.Contains(r1, r2) || Text.Contains(r2, r1)
  }

  /** Some pair of the table matches the two (lower-cased) roles. */
  predicate Complementary(r1: string, r2: string) {
    exists i :: 0 <= i < |ComplementaryPairs| && PairMatches(ComplementaryPairs[i], r1, r2)
  }

  /** 12 for roles of one family, else 20 for complementary roles, else 5. */
  function RoleScore(role1: string, role2: string): (r: int)
    ensures r == 5 || r == 12 || r == 20
  {
    var r1, r2 := Text.Lower(role1), Text.Lower(role2);
    if SameRoleFamily(r1, r2) then 12
    else if Complementary(r1, r2) then 20
    else 5
  }

  /** The role score as the engine computes it: pair by pair, returning at the first match. */
  method CalculateRoleComplementarity(role1: string, role2: string) returns (score: int)
    ensures score == RoleScore(role1, role2)
  {
    var r1 := Text.Lower(role1);
    var r2 := Text.Lower(role2);
    if Text.Contains(r1, r2) || Text.Contains(r2, r1) {
      return 12;
    }
    var i := 0;
    while i < |ComplementaryPairs|
      invariant 0 <= i <= |ComplementaryPairs|
      invariant forall j :: 0 <= j < i ==> !PairMatches(ComplementaryPairs[j], r1, r2)
    {
      var pair := ComplementaryPairs[i];
      var r1InGroup1 := exists k :: k in pair.group1 && Text.Contains(r1, k);
      var r1InGroup2 := exists k :: k in pair.group2 && Text.Contains(r1, k);
      var r2InGroup1 := exists k :: k in pair.group1 && Text.Contains(r2, k);
      var r2InGroup2 := exists k :: k in pair.group2 && Text.Contains(r2, k);
      if (r1InGroup1 && r2InGroup2) || (r1InGroup2 && r2InGroup1) {
        return 20;
      }
      i := i + 1;
    }
    return 5;
  }

  /** The role score does not depend on the order of the two roles. */
  lemma RoleScoreSymmetric(role1: string, role2: string)
    ensures RoleScore(role1, role2) == RoleScore(role2, role1)
  {
    var r1, r2 := Text.Lower(role1), Text.Lower(role2);
    assert forall i :: 0 <= i < |ComplementaryPairs| ==>
      (PairMatches(ComplementaryPairs[i], r1, r2) <==> PairMatches(ComplementaryPairs[i], r2, r1));
  }

  /** Equal roles and an empty role are one family: 12 points. */
  lemma RoleScoreSameFamily(role1: string, role2: string)
    requires Text.Lower(role1) == Text.Lower(role2) || role1 == "" || role2 == ""
    ensures RoleScore(role1, role2) == 12
  {
    Text.ContainsSelf(Text.Lower(role1));
    Text.ContainsEmpty(Text.Lower(role1));
    Text.ContainsEmpty(Text.Lower(role2));
  }

  /** A developer and a designer are complementary: the first pair of the table matches. */
  lemma RoleScoreDeveloperDesigner()
    ensures RoleScore("XR Developer", "Product Designer") == 20
  {
    Text.NotContains("xr developer", "product designer", 0);
    Text.NotContains("product designer", "xr developer", 0);
    DeveloperDesignerPair("xr developer", "product designer");
    LowerExampleRoles();
    assert Complementary("xr developer", "product designer");
  }

  lemma LowerExampleRoles()
    ensures Text.Lower("XR Developer") == "xr developer"
    ensures Text.Lower("Product Designer") == "product designer"
  {
  }

  lemma DeveloperDesignerPair(r1: string, r2: string)
    requires r1 == "xr developer" && r2 == "product designer"
    ensures PairMatches(ComplementaryPairs[0], r1, r2)
  {
    Text.ContainsAt(r1, "developer", 3);
    Text.ContainsAt(r2, "designer", 8);
    assert InGroup(r1, ["developer", "engineer"]);
    assert InGroup(r2, ["designer", "ux"]);
  }

  /** 15, 10, 5 or 2 points as the difference in years grows. */
  function ExperienceCompatibility(exp1: int, exp2: int): (r: int)
    ensures r == 15 || r == 10 || r == 5 || r == 2
    ensures r >= 10 <==> Abs(exp1 - exp2) <= 4
  {
    var diff := Abs(exp1 - exp2);
    if diff <= 2 then 15
    else if diff <= 4 then 10
    else if diff <= 6 then 5
    else 2
  }

  lemma ExperienceSymmetric(exp1: int, exp2: int)
    ensures ExperienceCompatibility(exp1, exp2) == ExperienceCompatibility(exp2, exp1)
  {
  }

  /** A larger difference in years never scores more. */
  lemma ExperienceNonIncreasing(exp1: int, exp2: int, exp3: int, exp4: int)
    requires Abs(exp1 - exp2) <= Abs(exp3 - exp4)
    ensures ExperienceCompatibility(exp1, exp2) >= ExperienceCompatibility(exp3, exp4)
  {
  }

  /** A missing number of years counts as 0. */
  function Years(p: Profile): int {
    match p.experienceYears
    case None => 0
    case Some(y) => y
  }

  /** The region of a location: the trimmed, lower-cased text after its last comma. */
  function Region(location: string): string {
    Text.Lower(Text.Trim(Text.Last(Text.Split(location, ','))))
  }

  /** 10 for the same location up to case, else 7 for the same non-empty region, else 0. */
  function LocationBonus(loc1: string, loc2: string): (r: int)
    ensures r == 0 || r == 7 || r == 10
    ensures r == 10 <==> Text.Lower(loc1) == Text.Lower(loc2)
  {
    if Text.Lower(loc1) == Text.Lower(loc2) then 10
    else
      var state1, state2 := Region(loc1), Region(loc2);
      if state1 != "" && state2 != "" && state1 == state2 then 7 else 0
  }

  /** The location is given and not empty. */
  predicate HasLocation(p: Profile) {
    p.location.Some? && p.location.value != ""
  }

  /** The location bonus, counted only when both profiles have a location. */
  function LocationScore(a: Profile, b: Profile): (r: int)
    ensures 0 <= r <= 10
    ensures r > 0 ==> HasLocation(a) && HasLocation(b)
  {
    if HasLocation(a) && HasLocation(b) then LocationBonus(a.location.value, b.location.value) else 0
  }

  lemma LocationScoreSymmetric(a: Profile, b: Profile)
    ensures LocationScore(a, b) == LocationScore(b, a)
  {
  }

  // --------------------------------------------------------- aggregate

  /** The sum of the five sub-scores: between 7 and 100. */
  function TotalScore(a: Profile, b: Profile): (score: int)
    ensures 7 <= score <= 100
  {
    SkillScore(a.skills, b.skills) + InterestScore(a.interests, b.interests)
    + RoleScore(a.role, b.role) + ExperienceCompatibility(Years(a), Years(b))
    + LocationScore(a, b)
  }

  /** Only roles and experience contribute, at their lowest values, exactly when the score is 7. */
  lemma MinimumScore(a: Profile, b: Profile)
    ensures TotalScore(a, b) == 7 <==>
      SkillOverlap(a.skills, b.skills) == 0 && InterestOverlap(a.interests, b.interests) == 0 &&
      RoleScore(a.role, b.role) == 5 && Abs(Years(a) - Years(b)) > 6 && LocationScore(a, b) == 0
  {
  }

  /** Scoring a profile against itself gives the full skill overlap, 12 for the role, 15 for experience and 10 for a location. */
  lemma IdenticalProfiles(a: Profile)
    ensures TotalScore(a, a) ==
      Min(|a.skills| * 10, 30) + InterestScore(a.interests, a.interests) + 12 + 15 +
      (if HasLocation(a) then 10 else 0)
  {
    SkillOverlapSelf(a.skills);
    RoleScoreSameFamily(a.role, a.role);
  }

  /** The score is not symmetric: repeating a shared skill on one side changes that side's score. */
  lemma TotalScoreAsymmetric(a: Profile, b: Profile)
    requires a == b.(skills := ["React", "React"]) && b.skills == ["React"]
    ensures TotalScore(a, b) == TotalScore(b, a) + 10
  {
    SkillOverlapAsymmetric();
    RoleScoreSymmetric(a.role, b.role);
  }

  // --------------------------------------------------------------- tiers

  /** EXCELLENT from 75, GOOD from 50, LOW below. */
  function GetMatchLevel(score: int): (level: MatchLevel)
    ensures level == EXCELLENT <==> score >= Constants.EXCELLENT_THRESHOLD
    ensures level == GOOD <==> Constants.GOOD_THRESHOLD <= score < Constants.EXCELLENT_THRESHOLD
    ensures level == LOW <==> score < Constants.GOOD_THRESHOLD
  {
    if score >= Constants.EXCELLENT_THRESHOLD then EXCELLENT
    else if score >= Constants.GOOD_THRESHOLD then GOOD
    else LOW
  }

  /** The tier's position, higher for a better tier. */
  function Rank(level: MatchLevel): int {
    match level
    case LOW => 0
    case GOOD => 1
    case EXCELLENT => 2
  }

  /** A higher score never gets a worse tier. */
  lemma MatchLevelMonotone(score1: int, score2: int)
    requires score1 <= score2
    ensures Rank(GetMatchLevel(score1)) <= Rank(GetMatchLevel(score2))
  {
  }

  /** The tier's colour: the one the aura colour table gives the tier, a `#` and six hex digits. */
  function GetAuraColor(level: MatchLevel): (color: string)
    ensures level == EXCELLENT ==> color == Constants.AURA_EXCELLENT
    ensures level == GOOD ==> color == Constants.AURA_GOOD
    ensures level == LOW ==> color == Constants.AURA_LOW
    ensures |color| == 7 && color[0] == '#'
  {
    match level
    case EXCELLENT => "#22c55e"
    case GOOD => "#eab308"
    case LOW => "#ef4444"
  }

  /** The tier's label, always of the form "... Match". */
  function GetMatchLevelLabel(level: MatchLevel): (name: string)
    ensures |name| > 6 && name[|name| - 6..] == " Match"
  {
    match level
    case EXCELLENT => "Excellent Match"
    case GOOD => "Good Match"
    case LOW => "Potential Match"
  }

  /** Each tier has its own colour and its own label. */
  lemma TierPresentationDistinct(level1: MatchLevel, level2: MatchLevel)
    requires level1 != level2
    ensures GetAuraColor(level1) != GetAuraColor(level2)
    ensures GetMatchLevelLabel(level1) != GetMatchLevelLabel(level2)
  {
  }

  // ------------------------------------------------------------- reasons

  function Plural(n: nat): string { if n > 1 then "s" else "" }

  function SkillReason(k: nat): string { Text.NatToString(k) + " shared skill" + Plural(k) }

  function InterestReason(j: nat): string { Text.NatToString(j) + " shared interest" + Plural(j) }

  const ROLE_REASON: string := "Complementary roles"
  const EXPERIENCE_REASON: string := "Compatible experience levels"
  const LOCATION_REASON: string := "Same region"

  /** `reasons` with `reason` appended when `condition` holds. */
  function PushIf(reasons: seq<string>, condition: bool, reason: string): (r: seq<string>)
    ensures |r| <= |reasons| + 1
    ensures forall x :: x in r <==> x in reasons || (condition && x == reason)
  {
    if condition then reasons + [reason] else reasons
  }

  /** The reasons, appended in the order skills, interests, roles, experience, location. */
  function Reasons(a: Profile, b: Profile): (reasons: seq<string>)
    ensures |reasons| <= 5
  {
    var k, j := SkillOverlap(a.skills, b.skills), InterestOverlap(a.interests, b.interests);
    var r1 := PushIf([], k > 0, SkillReason(k));
    var r2 := PushIf(r1, j > 0, InterestReason(j));
    var r3 := PushIf(r2, RoleScore(a.role, b.role) >= 15, ROLE_REASON);
    var r4 := PushIf(r3, ExperienceCompatibility(Years(a), Years(b)) >= 10, EXPERIENCE_REASON);
    PushIf(r4, LocationScore(a, b) >= 5, LOCATION_REASON)
  }

  /** A count reason starts with a digit, which tells it apart from the fixed reasons. */
  lemma CountReasonsDistinct(n: nat)
    ensures SkillReason(n) !in {ROLE_REASON, EXPERIENCE_REASON, LOCATION_REASON}
    ensures InterestReason(n) !in {ROLE_REASON, EXPERIENCE_REASON, LOCATION_REASON}
  {
    var d := Text.NatToString(n);
    assert SkillReason(n)[0] == d[0] && InterestReason(n)[0] == d[0];
    assert Text.IsDigit(d[0]);
  }

  /**
   * Each reason is given exactly when its factor qualifies: a shared skill, a
   * shared interest, complementary roles (20 points), at most four years
   * apart, and the same location or region.
   */
  lemma ReasonsIff(a: Profile, b: Profile)
    ensures var k := SkillOverlap(a.skills, b.skills);
      (k > 0 <==> SkillReason(k) in Reasons(a, b))
    ensures var j := InterestOverlap(a.interests, b.interests);
      (j > 0 <==> InterestReason(j) in Reasons(a, b))
    ensures ROLE_REASON in Reasons(a, b) <==> RoleScore(a.role, b.role) == 20
    ensures EXPERIENCE_REASON in Reasons(a, b) <==> Abs(Years(a) - Years(b)) <= 4
    ensures LOCATION_REASON in Reasons(a, b) <==> LocationScore(a, b) >= 7
  {
    var k, j := SkillOverlap(a.skills, b.skills), InterestOverlap(a.interests, b.interests);
    CountReasonsDistinct(k);
    CountReasonsDistinct(j);
    SkillVsInterest(k, j);
  }

  /** A skill reason is never an interest reason. */
  lemma SkillVsInterest(k: nat, j: nat)
    ensures SkillReason(k) != InterestReason(j)
  {
    var dk, dj := Text.NatToString(k), Text.NatToString(j);
    var s, t := SkillReason(k), InterestReason(j);
    assert s == dk + (" shared skill" + Plural(k));
    assert t == dj + (" shared interest" + Plural(j));
    if |dk| == |dj| {
      assert s[|dk| + 8] == 's' && t[|dk| + 8] == 'i';
    } else if |dk| < |dj| {
      assert s[|dk|] == ' ' && Text.IsDigit(t[|dk|]);
    } else {
      assert t[|dj|] == ' ' && Text.IsDigit(s[|dj|]);
    }
  }

  // ------------------------------------------------------------ analysis

  /**
   * The engine's analysis of two profiles, accumulated step by step: the score
   * is the plain sum of the sub-scores (the final clamp to [0, 100] never
   * changes it), the tier is the score's, and the reasons are those of
   * Reasons.
   */
  method AnalyzeMatch(currentUser: Profile, scannedProfile: Profile) returns (result: MatchResult)
    ensures result.score == TotalScore(currentUser, scannedProfile)
    ensures 7 <= result.score <= 100
    ensures result.matchLevel == GetMatchLevel(result.score)
    ensures result.reasons == Reasons(currentUser, scannedProfile)
  {
    var score := 0;
    var reasons: seq<string> := [];

    var skillOverlap := SkillOverlap(currentUser.skills, scannedProfile.skills);
    var skillScore := Min(skillOverlap * 10, 30);
    score := score + skillScore;
    if skillOverlap > 0 {
      reasons := reasons + [SkillReason(skillOverlap)];
    }
    assert reasons == PushIf([], skillOverlap > 0, SkillReason(skillOverlap));

    var interestOverlap := InterestOverlap(currentUser.interests, scannedProfile.interests);
    var interestScore := Min(interestOverlap * 8, 25);
    score := score + interestScore;
    ghost var r2 := PushIf(reasons, interestOverlap > 0, InterestReason(interestOverlap));
    if interestOverlap > 0 {
      reasons := reasons + [InterestReason(interestOverlap)];
    }
    assert reasons == r2;

    var roleScore := CalculateRoleComplementarity(currentUser.role, scannedProfile.role);
    score := score + roleScore;
    ghost var r3 := PushIf(reasons, roleScore >= 15, ROLE_REASON);
    if roleScore >= 15 {
      reasons := reasons + [ROLE_REASON];
    }
    assert reasons == r3;

    var expScore := ExperienceCompatibility(Years(currentUser), Years(scannedProfile));
    score := score + expScore;
    ghost var r4 := PushIf(reasons, expScore >= 10, EXPERIENCE_REASON);
    if expScore >= 10 {
      reasons := reasons + [EXPERIENCE_REASON];
    }
    assert reasons == r4;

    ghost var r5 := PushIf(reasons, LocationScore(currentUser, scannedProfile) >= 5, LOCATION_REASON);
    if HasLocation(currentUser) && HasLocation(scannedProfile) {
      var locationScore := LocationBonus(currentUser.location.value, scannedProfile.location.value);
      score := score + locationScore;
      if locationScore >= 5 {
        reasons := reasons + [LOCATION_REASON];
      }
    }
    assert reasons == r5;

    score := Min(Max(score, 0), 100);
    result := MatchResult(score, GetMatchLevel(score), reasons);
  }
}
