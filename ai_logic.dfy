/**
 * The rule-based career matching engine of `app/actions/ai-logic.ts`.
 *
 * Points: 10 per matched interest, 8 per matched skill, 6 per matched strength,
 * and an academic bonus of up to 15. Each dimension is normalised against the
 * career's own maximum and the four are weighted 0.40 / 0.35 / 0.15 / 0.10.
 * All arithmetic is over `real`.
 */
module AiLogic {
  import opened Wrappers
  import opened Types
  import Seqs
  import StableSort
  import Utils

  /** The raw points of one career against one student. */
  datatype MatchScores = MatchScores(
    interestScore: real,
    skillScore: real,
    strengthScore: real,
    academicBonus: real,
    totalScore: real)

  /** How many entries of `required` the student selected (duplicates count each time). */
  function CountMatches(required: seq<string>, selected: seq<string>): (n: nat)
    ensures n <= |required|
    ensures n == |required| <==> forall r :: r in required ==> r in selected
    ensures n == 0 <==> forall r :: r in required ==> r !in selected
  {
    var matched := Seqs.Filter(required, Seqs.Includes(selected));
    Seqs.FilterFullLength(required, Seqs.Includes(selected));
    NoMatchesIff(required, selected);
    |matched|
  }

  lemma NoMatchesIff(required: seq<string>, selected: seq<string>)
    ensures |Seqs.Filter(required, Seqs.Includes(selected))| == 0 <==> forall r :: r in required ==> r !in selected
  {
    var matched := Seqs.Filter(required, Seqs.Includes(selected));
    if matched != [] {
      assert matched[0] in matched;
    }
  }

  /**
   * The academic bonus: marks up to 10 are a CGPA (out of 10), anything higher a
   * percentage (out of 100); either way scaled to 15 points.
   */
  function AcademicBonus(marksOrCgpa: real): (bonus: real)
    ensures 0.0 <= marksOrCgpa <= 100.0 ==> 0.0 <= bonus <= 15.0
    ensures marksOrCgpa <= 10.0 ==> bonus * 10.0 == marksOrCgpa * 15.0
    ensures marksOrCgpa > 10.0 ==> bonus * 100.0 == marksOrCgpa * 15.0
  {
    if marksOrCgpa <= 10.0 then (marksOrCgpa / 10.0) * 15.0
    else (marksOrCgpa / 100.0) * 15.0
  }

  /** `calculateRawScores`. */
  function CalculateRawScores(
    career: CareerOption,
    studentInterests: seq<string>,
    studentSkills: seq<string>,
    studentStrengths: seq<string>,
    marksOrCgpa: real): (scores: MatchScores)
    ensures 0.0 <= scores.interestScore <= 10.0 * |career.requiredInterests| as real
    ensures 0.0 <= scores.skillScore <= 8.0 * |career.requiredSkills| as real
    ensures 0.0 <= scores.strengthScore <= 6.0 * |career.requiredStrengths| as real
    ensures scores.totalScore ==
              scores.interestScore + scores.skillScore + scores.strengthScore + scores.academicBonus
  {
    var interestMatches := CountMatches(career.requiredInterests, studentInterests);
    var skillMatches := CountMatches(career.requiredSkills, studentSkills);
    var strengthMatches := CountMatches(career.requiredStrengths, studentStrengths);
    var interestScore := interestMatches as real * 10.0;
    var skillScore := skillMatches as real * 8.0;
    var strengthScore := strengthMatches as real * 6.0;
    var academicBonus := AcademicBonus(marksOrCgpa);
    MatchScores(interestScore, skillScore, strengthScore, academicBonus,
                interestScore + skillScore + strengthScore + academicBonus)
  }

  /** `actual / maximum`, or 0 when the maximum is 0. */
  function Normalize(actual: real, maximum: real): (fraction: real)
    ensures maximum <= 0.0 ==> fraction == 0.0
    ensures 0.0 <= actual <= maximum && maximum > 0.0 ==> 0.0 <= fraction <= 1.0
    ensures maximum > 0.0 ==> fraction * maximum == actual
  {
    if maximum > 0.0 then actual / maximum else 0.0
  }

  /** Every dimension lies between 0 and its maximum (points per match times the requirement length). */
  predicate WithinMaxima(scores: MatchScores, career: CareerOption) {
    && 0.0 <= scores.interestScore <= |career.requiredInterests| as real * 10.0
    && 0.0 <= scores.skillScore <= |career.requiredSkills| as real * 8.0
    && 0.0 <= scores.strengthScore <= |career.requiredStrengths| as real * 6.0
    && 0.0 <= scores.academicBonus <= 15.0
  }

  /** Every requirement list is non-empty and every dimension is at its maximum. */
  predicate FullMarks(scores: MatchScores, career: CareerOption) {
    && |career.requiredInterests| > 0 && |career.requiredSkills| > 0 && |career.requiredStrengths| > 0
    && scores.interestScore == |career.requiredInterests| as real * 10.0
    && scores.skillScore == |career.requiredSkills| as real * 8.0
    && scores.strengthScore == |career.requiredStrengths| as real * 6.0
    && scores.academicBonus == 15.0
  }

  /** `calculateWeightedScore`: the weighted sum of the normalised dimensions, on a 0-100 scale. */
  function CalculateWeightedScore(scores: MatchScores, career: CareerOption): (weighted: real)
    ensures WithinMaxima(scores, career) ==> 0.0 <= weighted <= 100.0
    ensures FullMarks(scores, career) ==> weighted == 100.0
  {
    var maxInterestScore := |career.requiredInterests| as real * 10.0;
    var maxSkillScore := |career.requiredSkills| as real * 8.0;
    var maxStrengthScore := |career.requiredStrengths| as real * 6.0;
    var maxAcademicBonus := 15.0;
    var normalizedInterest := Normalize(scores.interestScore, maxInterestScore);
    var normalizedSkill := Normalize(scores.skillScore, maxSkillScore);
    var normalizedStrength := Normalize(scores.strengthScore, maxStrengthScore);
    var normalizedAcademic := scores.academicBonus / maxAcademicBonus;
    assert FullMarks(scores, career) ==>
             normalizedInterest == 1.0 && normalizedSkill == 1.0 && normalizedStrength == 1.0;
    (normalizedInterest * 0.40 + normalizedSkill * 0.35 + normalizedStrength * 0.15
      + normalizedAcademic * 0.10) * 100.0
  }

  /** The weighted score of a student against a career, before the education gate. */
  function WeightedMatch(
    career: CareerOption, interests: seq<string>, skills: seq<string>,
    strengths: seq<string>, marksOrCgpa: real): real
  {
    CalculateWeightedScore(CalculateRawScores(career, interests, skills, strengths, marksOrCgpa), career)
  }

  /**
   * A student who selected every required interest, skill and strength of a
   * career with no empty requirement list, with a CGPA of 10 or 100 percent,
   * weighs exactly 100.
   */
  lemma PerfectStudentWeighsFull(
    career: CareerOption, interests: seq<string>, skills: seq<string>,
    strengths: seq<string>, marksOrCgpa: real)
    requires |career.requiredInterests| > 0 && |career.requiredSkills| > 0
    requires |career.requiredStrengths| > 0
    requires forall r :: r in career.requiredInterests ==> r in interests
    requires forall r :: r in career.requiredSkills ==> r in skills
    requires forall r :: r in career.requiredStrengths ==> r in strengths
    requires marksOrCgpa == 10.0 || marksOrCgpa == 100.0
    ensures WeightedMatch(career, interests, skills, strengths, marksOrCgpa) == 100.0
  {
    var scores := CalculateRawScores(career, interests, skills, strengths, marksOrCgpa);
    assert CountMatches(career.requiredInterests, interests) == |career.requiredInterests|;
    assert CountMatches(career.requiredSkills, skills) == |career.requiredSkills|;
    assert CountMatches(career.requiredStrengths, strengths) == |career.requiredStrengths|;
    assert AcademicBonus(marksOrCgpa) == 15.0;
    assert FullMarks(scores, career);
  }

  /** With marks in [0, 100] every dimension lies in [0, 1], so the weighted score lies in [0, 100]. */
  lemma WeightedScoreBounds(
    career: CareerOption, interests: seq<string>, skills: seq<string>,
    strengths: seq<string>, marksOrCgpa: real)
    requires 0.0 <= marksOrCgpa <= 100.0
    ensures 0.0 <= WeightedMatch(career, interests, skills, strengths, marksOrCgpa) <= 100.0
  {
    var scores := CalculateRawScores(career, interests, skills, strengths, marksOrCgpa);
    var ni := Normalize(scores.interestScore, |career.requiredInterests| as real * 10.0);
    var ns := Normalize(scores.skillScore, |career.requiredSkills| as real * 8.0);
    var nt := Normalize(scores.strengthScore, |career.requiredStrengths| as real * 6.0);
    var na := scores.academicBonus / 15.0;
    assert 0.0 <= ni <= 1.0 && 0.0 <= ns <= 1.0 && 0.0 <= nt <= 1.0;
    assert 0.0 <= na <= 1.0;
  }

  /**
   * An empty requirement list contributes nothing: with no required skills the
   * student's skills do not affect the weighted score (likewise interests, strengths).
   */
  lemma EmptyRequirementNeutral(
    career: CareerOption, interests: seq<string>, interests': seq<string>,
    skills: seq<string>, skills': seq<string>,
    strengths: seq<string>, strengths': seq<string>, marksOrCgpa: real)
    requires career.requiredInterests == [] || interests == interests'
    requires career.requiredSkills == [] || skills == skills'
    requires career.requiredStrengths == [] || strengths == strengths'
    ensures WeightedMatch(career, interests, skills, strengths, marksOrCgpa)
         == WeightedMatch(career, interests', skills', strengths', marksOrCgpa)
  {
    assert CountMatches(career.requiredInterests, interests) == CountMatches(career.requiredInterests, interests');
    assert CountMatches(career.requiredSkills, skills) == CountMatches(career.requiredSkills, skills');
    assert CountMatches(career.requiredStrengths, strengths) == CountMatches(career.requiredStrengths, strengths');
    assert CalculateRawScores(career, interests, skills, strengths, marksOrCgpa)
        == CalculateRawScores(career, interests', skills', strengths', marksOrCgpa);
  }

  /** `determineConfidence`: high from 75, medium from 50, low below. */
  function DetermineConfidence(matchPercentage: real): (c: Confidence)
    ensures c == High <==> matchPercentage >= 75.0
    ensures c == Medium <==> 50.0 <= matchPercentage < 75.0
    ensures c == Low <==> matchPercentage < 50.0
  {
    if matchPercentage >= 75.0 then High
    else if matchPercentage >= 50.0 then Medium
    else Low
  }

  /** The progress bar uses the same thresholds as the confidence tiers. */
  lemma ProgressColorMatchesConfidence(p: real)
    ensures Utils.GetProgressColor(p) == Utils.GreenBar <==> DetermineConfidence(p) == High
    ensures Utils.GetProgressColor(p) == Utils.YellowBar <==> DetermineConfidence(p) == Medium
    ensures Utils.GetProgressColor(p) == Utils.RedBar <==> DetermineConfidence(p) == Low
  {
  }

  /**
   * `identifySkillGaps`: the required skills the student lacks, in their original
   * order and with their multiplicities.
   */
  function IdentifySkillGaps(requiredSkills: seq<string>, studentSkills: seq<string>): (gaps: seq<string>)
    ensures forall g :: g in gaps <==> g in requiredSkills && g !in studentSkills
    ensures Seqs.IsSubsequence(gaps, requiredSkills)
    ensures forall g :: g !in studentSkills ==> multiset(gaps)[g] == multiset(requiredSkills)[g]
    ensures |gaps| + CountMatches(requiredSkills, studentSkills) == |requiredSkills|
  {
    var gaps := Seqs.Filter(requiredSkills, Seqs.Excludes(studentSkills));
    Seqs.FilterIsSubsequence(requiredSkills, Seqs.Excludes(studentSkills));
    Seqs.FilterComplementLength(requiredSkills, Seqs.Includes(studentSkills), Seqs.Excludes(studentSkills));
    assert forall g :: g !in studentSkills ==> multiset(gaps)[g] == multiset(requiredSkills)[g] by {
      forall g | g !in studentSkills {
        Seqs.FilterMultiplicity(requiredSkills, Seqs.Excludes(studentSkills), g);
      }
    }
    gaps
  }

  /** `!minimumEducation`: null and "" impose no requirement. */
  predicate HasRequirement(minimumEducation: Option<string>) {
    minimumEducation.Some? && minimumEducation.value != ""
  }

  /** `meetsEducationRequirement`. */
  function MeetsEducationRequirement(studentEducation: string, minimumEducation: Option<string>): (meets: bool)
    ensures !meets <==> (HasRequirement(minimumEducation) &&
      Utils.EducationLevelToNumber(studentEducation) < Utils.EducationLevelToNumber(minimumEducation.value))
  {
    if !HasRequirement(minimumEducation) then true
    else
      var studentLevel := Utils.EducationLevelToNumber(studentEducation);
      var minimumLevel := Utils.EducationLevelToNumber(minimumEducation.value);
      studentLevel >= minimumLevel
  }

  /** An unrecognised student level is penalised against any recognised minimum. */
  lemma UnknownLevelPenalised(studentEducation: string, minimum: string)
    requires Utils.EducationLevelToNumber(studentEducation) == 0
    requires minimum in {"High School", "Undergraduate", "Graduate"}
    ensures !MeetsEducationRequirement(studentEducation, Some(minimum))
  {
  }

  /** `Math.min(100, Math.max(0, x))`. */
  function Clamp(x: real): (r: real)
    ensures 0.0 <= r <= 100.0
    ensures 0.0 <= x <= 100.0 ==> r == x
  {
    if x < 0.0 then 0.0 else if x > 100.0 then 100.0 else x
  }

  /** `calculateMatchScore`: score one career, apply the education gate, clamp, tier, list gaps. */
  function CalculateMatchScore(
    career: CareerOption,
    studentInterests: seq<string>,
    studentSkills: seq<string>,
    studentStrengths: seq<string>,
    studentEducation: string,
    marksOrCgpa: real): (r: CareerScore)
    ensures r.career == career && r.rank == 0
    ensures 0.0 <= r.matchPercentage <= 100.0
    ensures r.confidenceScore == High <==> r.matchPercentage >= 75.0
    ensures r.confidenceScore == Medium <==> 50.0 <= r.matchPercentage < 75.0
    ensures r.confidenceScore == Low <==> r.matchPercentage < 50.0
    ensures forall g :: g in r.skillGaps <==> g in career.requiredSkills && g !in studentSkills
  {
    var scores := CalculateRawScores(career, studentInterests, studentSkills, studentStrengths, marksOrCgpa);
    var matchPercentage := CalculateWeightedScore(scores, career);
    var matchPercentage :=
      if !MeetsEducationRequirement(studentEducation, career.minimumEducation)
      then matchPercentage * 0.7 else matchPercentage;
    var matchPercentage := Clamp(matchPercentage);
    CareerScore(career, scores.totalScore, matchPercentage, DetermineConfidence(matchPercentage),
                IdentifySkillGaps(career.requiredSkills, studentSkills), 0)
  }

  /**
   * The education gate: the unclamped percentage is exactly 0.7 of the weighted
   * score when the minimum is set and the student's level is below it, and equal
   * to it otherwise; with marks in [0, 100] no clamping happens, so that is the result.
   */
  lemma EducationPenalty(
    career: CareerOption, interests: seq<string>, skills: seq<string>,
    strengths: seq<string>, education: string, marksOrCgpa: real)
    requires 0.0 <= marksOrCgpa <= 100.0
    ensures var weighted := WeightedMatch(career, interests, skills, strengths, marksOrCgpa);
            var result := CalculateMatchScore(career, interests, skills, strengths, education, marksOrCgpa);
            result.matchPercentage ==
              if HasRequirement(career.minimumEducation) &&
                 Utils.EducationLevelToNumber(education) < Utils.EducationLevelToNumber(career.minimumEducation.value)
              then 0.7 * weighted else weighted
  {
    WeightedScoreBounds(career, interests, skills, strengths, marksOrCgpa);
  }

  /** The raw `score` field is the sum of the points: 10, 8 and 6 per match plus the bonus. */
  lemma RawScoreIsPointSum(
    career: CareerOption, interests: seq<string>, skills: seq<string>,
    strengths: seq<string>, education: string, marksOrCgpa: real)
    ensures CalculateMatchScore(career, interests, skills, strengths, education, marksOrCgpa).score ==
              10.0 * CountMatches(career.requiredInterests, interests) as real
              + 8.0 * CountMatches(career.requiredSkills, skills) as real
              + 6.0 * CountMatches(career.requiredStrengths, strengths) as real
              + AcademicBonus(marksOrCgpa)
  {
  }

  /** Two selections that contain the same labels, in whatever order and multiplicity. */
  ghost predicate SameMembers(a: seq<string>, b: seq<string>) {
    forall x :: x in a <==> x in b
  }

  /** Only which labels were selected matters to a count, not their order. */
  lemma CountMatchesByMembership(required: seq<string>, a: seq<string>, b: seq<string>)
    requires SameMembers(a, b)
    ensures CountMatches(required, a) == CountMatches(required, b)
  {
    Seqs.FilterCongruent(required, Seqs.Includes(a), Seqs.Includes(b));
  }

  /**
   * The match score of a career depends on the student's selections only through
   * their membership (`includes`): reordering or repeating a selection changes nothing.
   */
  lemma MatchIgnoresSelectionOrder(
    career: CareerOption,
    interests1: seq<string>, skills1: seq<string>, strengths1: seq<string>,
    interests2: seq<string>, skills2: seq<string>, strengths2: seq<string>,
    education: string, marksOrCgpa: real)
    requires SameMembers(interests1, interests2)
    requires SameMembers(skills1, skills2)
    requires SameMembers(strengths1, strengths2)
    ensures CalculateMatchScore(career, interests1, skills1, strengths1, education, marksOrCgpa) ==
            CalculateMatchScore(career, interests2, skills2, strengths2, education, marksOrCgpa)
  {
    CountMatchesByMembership(career.requiredInterests, interests1, interests2);
    CountMatchesByMembership(career.requiredSkills, skills1, skills2);
    CountMatchesByMembership(career.requiredStrengths, strengths1, strengths2);
    assert CalculateRawScores(career, interests1, skills1, strengths1, marksOrCgpa) ==
           CalculateRawScores(career, interests2, skills2, strengths2, marksOrCgpa);
    Seqs.FilterCongruent(career.requiredSkills, Seqs.Excludes(skills1), Seqs.Excludes(skills2));
    ScoreFromRawAndGaps(career, interests1, skills1, strengths1, interests2, skills2, strengths2,
                        education, marksOrCgpa);
  }

  /** Two students with the same raw points and the same skill gaps get the same match score. */
  lemma ScoreFromRawAndGaps(
    career: CareerOption,
    interests1: seq<string>, skills1: seq<string>, strengths1: seq<string>,
    interests2: seq<string>, skills2: seq<string>, strengths2: seq<string>,
    education: string, marksOrCgpa: real)
    requires CalculateRawScores(career, interests1, skills1, strengths1, marksOrCgpa) ==
             CalculateRawScores(career, interests2, skills2, strengths2, marksOrCgpa)
    requires IdentifySkillGaps(career.requiredSkills, skills1) == IdentifySkillGaps(career.requiredSkills, skills2)
    ensures CalculateMatchScore(career, interests1, skills1, strengths1, education, marksOrCgpa) ==
            CalculateMatchScore(career, interests2, skills2, strengths2, education, marksOrCgpa)
  {
  }

  /** The matchPercentage of a score: the sort key. */
  function Percentage(s: CareerScore): real {
    s.matchPercentage
  }

  /**
   * `rankCareers`: stable sort by descending match percentage, keep the first
   * `topN`, and number them from 1.
   */
  function RankCareers(careerScores: seq<CareerScore>, topN: nat): (ranked: seq<CareerScore>)
    ensures |ranked| == if |careerScores| < topN then |careerScores| else topN
    ensures forall i :: 0 <= i < |ranked| ==> ranked[i].rank == i + 1
    ensures forall i, j :: 0 <= i < j < |ranked| ==> ranked[i].matchPercentage >= ranked[j].matchPercentage
    ensures forall i :: 0 <= i < |ranked| ==>
              ranked[i] == StableSort.SortDescending(careerScores, Percentage)[i].(rank := i + 1)
  {
    var sorted := StableSort.SortDescending(careerScores, Percentage);
    var count := if |sorted| < topN then |sorted| else topN;
    var ranked := Renumber(sorted, count);
    StableSort.SortIsDescending(careerScores, Percentage);
    RenumberedInOrder(sorted, ranked);
    ranked
  }

  /** The first `count` scores, numbered from 1. */
  function Renumber(sorted: seq<CareerScore>, count: nat): (ranked: seq<CareerScore>)
    requires count <= |sorted|
    ensures |ranked| == count
    ensures forall i :: 0 <= i < count ==> ranked[i] == sorted[i].(rank := i + 1)
  {
    seq(count, i requires 0 <= i < count => sorted[i].(rank := i + 1))
  }

  /** Renumbering a prefix of a descending list keeps its percentages descending. */
  lemma RenumberedInOrder(sorted: seq<CareerScore>, ranked: seq<CareerScore>)
    requires StableSort.Descending(sorted, Percentage)
    requires |ranked| <= |sorted|
    requires forall i :: 0 <= i < |ranked| ==> ranked[i] == sorted[i].(rank := i + 1)
    ensures forall i, j :: 0 <= i < j < |ranked| ==> ranked[i].matchPercentage >= ranked[j].matchPercentage
  {
    forall i, j | 0 <= i < j < |ranked| ensures ranked[i].matchPercentage >= ranked[j].matchPercentage {
      assert Percentage(sorted[i]) >= Percentage(sorted[j]);
    }
  }

  /** Every ranked entry is one of the input scores, renumbered. */
  lemma RankedFromInput(careerScores: seq<CareerScore>, topN: nat, i: nat)
    requires i < |RankCareers(careerScores, topN)|
    ensures exists j :: 0 <= j < |careerScores| &&
              RankCareers(careerScores, topN)[i] == careerScores[j].(rank := i + 1)
  {
    var sorted := StableSort.SortDescending(careerScores, Percentage);
    assert sorted[i] in multiset(careerScores);
    var j :| 0 <= j < |careerScores| && careerScores[j] == sorted[i];
  }

  /**
   * Ties keep catalogue order: the scores sharing any one percentage appear in
   * the sorted list in the order they had in the input.
   */
  lemma RankingKeepsTieOrder(careerScores: seq<CareerScore>, pct: real)
    ensures var sorted := StableSort.SortDescending(careerScores, Percentage);
            StableSort.WithKey(sorted, Percentage, pct) == StableSort.WithKey(careerScores, Percentage, pct)
  {
    StableSort.SortIsStable(careerScores, Percentage, pct);
  }

  /** A score that beats another strictly is ranked ahead of it (when both are in the ranking). */
  lemma HigherScoreRankedFirst(careerScores: seq<CareerScore>, topN: nat, i: nat, j: nat)
    requires i < |RankCareers(careerScores, topN)| && j < |RankCareers(careerScores, topN)|
    requires RankCareers(careerScores, topN)[i].matchPercentage > RankCareers(careerScores, topN)[j].matchPercentage
    ensures RankCareers(careerScores, topN)[i].rank < RankCareers(careerScores, topN)[j].rank
  {
    RankFollowsPercentage(RankCareers(careerScores, topN), i, j);
  }

  /** In a list numbered from 1 by descending percentage, a strictly higher percentage has a smaller rank. */
  lemma RankFollowsPercentage(ranked: seq<CareerScore>, i: nat, j: nat)
    requires i < |ranked| && j < |ranked|
    requires forall k :: 0 <= k < |ranked| ==> ranked[k].rank == k + 1
    requires forall a, b :: 0 <= a < b < |ranked| ==> ranked[a].matchPercentage >= ranked[b].matchPercentage
    requires ranked[i].matchPercentage > ranked[j].matchPercentage
    ensures ranked[i].rank < ranked[j].rank
  {
  }

  /** Score every career once, in catalogue order (the `Promise.all` over `careers.map`). */
  function ScoreAll(
    careers: seq<CareerOption>, interests: seq<string>, skills: seq<string>,
    strengths: seq<string>, education: string, marksOrCgpa: real): (scores: seq<CareerScore>)
    ensures |scores| == |careers|
    ensures forall i :: 0 <= i < |scores| ==> scores[i].career == careers[i] && scores[i].rank == 0
    ensures forall i :: 0 <= i < |scores| ==> 0.0 <= scores[i].matchPercentage <= 100.0
  {
    seq(|careers|, i requires 0 <= i < |careers| =>
      CalculateMatchScore(careers[i], interests, skills, strengths, education, marksOrCgpa))
  }

  /** `generateCareerRecommendations`: the top three careers, ranked 1 to 3. */
  function GenerateCareerRecommendations(
    careers: seq<CareerOption>, interests: seq<string>, skills: seq<string>,
    strengths: seq<string>, education: string, marksOrCgpa: real): (recommendations: seq<CareerScore>)
    ensures |recommendations| == if |careers| < 3 then |careers| else 3
    ensures forall i :: 0 <= i < |recommendations| ==>
              recommendations[i].rank == i + 1 && 0.0 <= recommendations[i].matchPercentage <= 100.0
    ensures forall i, j :: 0 <= i < j < |recommendations| ==>
              recommendations[i].matchPercentage >= recommendations[j].matchPercentage
  {
    var scores := ScoreAll(careers, interests, skills, strengths, education, marksOrCgpa);
    var ranked := RankCareers(scores, 3);
    assert forall i :: 0 <= i < |ranked| ==> 0.0 <= ranked[i].matchPercentage <= 100.0 by {
      forall i | 0 <= i < |ranked| ensures 0.0 <= ranked[i].matchPercentage <= 100.0 {
        RankedFromInput(scores, 3, i);
      }
    }
    ranked
  }

  /** Each recommendation is the match score of one catalogue career, with its rank filled in. */
  lemma RecommendationFromCatalogue(
    careers: seq<CareerOption>, interests: seq<string>, skills: seq<string>,
    strengths: seq<string>, education: string, marksOrCgpa: real, i: nat)
    requires i < |GenerateCareerRecommendations(careers, interests, skills, strengths, education, marksOrCgpa)|
    ensures exists j :: 0 <= j < |careers| &&
              GenerateCareerRecommendations(careers, interests, skills, strengths, education, marksOrCgpa)[i] ==
                CalculateMatchScore(careers[j], interests, skills, strengths, education, marksOrCgpa).(rank := i + 1)
  {
    var scores := ScoreAll(careers, interests, skills, strengths, education, marksOrCgpa);
    RankedFromInput(scores, 3, i);
  }

  /** The career of the worked examples below. */
  function ExampleCareer(minimumEducation: Option<string>): CareerOption {
    CareerOption("c1", "Software Engineer", None,
                 ["Technology", "Science"], ["Logical Thinking"], [],
                 minimumEducation, None, None, "")
  }

  /** One interest of two, the only skill, no strengths, CGPA 8.5: 20 + 35 + 0 + 8.5 = 63.5. */
  lemma ExampleWeighted(minimumEducation: Option<string>)
    ensures WeightedMatch(ExampleCareer(minimumEducation), ["Technology"], ["Logical Thinking"], [], 8.5) == 63.5
  {
    assert CountMatches(["Technology", "Science"], ["Technology"]) == 1 by {
      Seqs.FilterCons("Technology", ["Science"], Seqs.Includes(["Technology"]));
      assert ["Technology", "Science"] == ["Technology"] + ["Science"];
      Seqs.FilterCons("Science", [], Seqs.Includes(["Technology"]));
      assert ["Science"] == ["Science"] + [];
    }
    assert CountMatches(["Logical Thinking"], ["Logical Thinking"]) == 1;
  }

  /** The worked example without an education minimum: 63.5, medium confidence, no gaps. */
  lemma ExampleMediumMatch()
    ensures var r := CalculateMatchScore(ExampleCareer(None), ["Technology"], ["Logical Thinking"], [],
                                         "Undergraduate", 8.5);
            r.matchPercentage == 63.5 && r.confidenceScore == Medium && r.skillGaps == []
  {
    ExampleWeighted(None);
    EducationPenalty(ExampleCareer(None), ["Technology"], ["Logical Thinking"], [], "Undergraduate", 8.5);
  }

  /** The same student below a Graduate minimum: 0.7 of 63.5 is 44.45, low confidence. */
  lemma ExamplePenalisedMatch()
    ensures var r := CalculateMatchScore(ExampleCareer(Some("Graduate")), ["Technology"], ["Logical Thinking"], [],
                                         "High School", 8.5);
            r.matchPercentage == 44.45 && r.confidenceScore == Low
  {
    ExampleWeighted(Some("Graduate"));
    EducationPenalty(ExampleCareer(Some("Graduate")), ["Technology"], ["Logical Thinking"], [], "High School", 8.5);
  }
}
