/**
 * `app/actions/assessment.ts`: the rows `generateRecommendations` stores for a
 * finished assessment, and the admin dashboard figures of `getStatistics`.
 *
 * Each query result is a parameter; a query that failed reads as null data
 * (None), which the source treats like an empty result.
 */
module AssessmentActions {
  import opened Wrappers
  import opened Types
  import AiLogic
  import Tally

  /** One row inserted into `recommendations`. */
  datatype RecommendationRow = RecommendationRow(
    studentProfileId: string,
    careerOptionId: string,
    matchPercentage: real,
    confidenceScore: Confidence,
    skillGaps: seq<string>,
    rank: int)

  /** The dashboard figures. */
  datatype Statistics = Statistics(
    totalAssessments: int,
    mostSelectedInterests: seq<Tally.Entry>,
    mostRecommendedCareers: seq<Tally.Entry>,
    averageMatchPercentage: real,
    educationLevelBreakdown: seq<Tally.Entry>)

  /** `careerScores.map(score => ({ ... }))`: one row per score, tagged with the student. */
  function RecommendationRows(studentProfileId: string, scores: seq<CareerScore>): (rows: seq<RecommendationRow>)
    ensures |rows| == |scores|
    ensures forall i :: 0 <= i < |rows| ==>
              && rows[i].studentProfileId == studentProfileId
              && rows[i].careerOptionId == scores[i].career.id
              && rows[i].matchPercentage == scores[i].matchPercentage
              && rows[i].confidenceScore == scores[i].confidenceScore
              && rows[i].skillGaps == scores[i].skillGaps
              && rows[i].rank == scores[i].rank
  {
    seq(|scores|, i requires 0 <= i < |scores| =>
      RecommendationRow(studentProfileId, scores[i].career.id, scores[i].matchPercentage,
                        scores[i].confidenceScore, scores[i].skillGaps, scores[i].rank))
  }

  /** The rows `generateRecommendations` inserts for a student's answers. */
  function GeneratedRows(
    studentProfileId: string, careers: seq<CareerOption>, interests: seq<string>, skills: seq<string>,
    strengths: seq<string>, educationLevel: string, marksCgpa: real): seq<RecommendationRow>
  {
    RecommendationRows(studentProfileId,
      AiLogic.GenerateCareerRecommendations(careers, interests, skills, strengths, educationLevel, marksCgpa))
  }

  /**
   * A finished assessment stores at most three rows, ranked 1, 2, 3 by
   * non-increasing match percentage, all for the student.
   */
  lemma GeneratedRowsRanked(
    studentProfileId: string, careers: seq<CareerOption>, interests: seq<string>, skills: seq<string>,
    strengths: seq<string>, educationLevel: string, marksCgpa: real)
    ensures var rows := GeneratedRows(studentProfileId, careers, interests, skills, strengths, educationLevel, marksCgpa);
            && |rows| == (if |careers| < 3 then |careers| else 3)
            && (forall i :: 0 <= i < |rows| ==>
                  rows[i].rank == i + 1 && rows[i].studentProfileId == studentProfileId
                  && 0.0 <= rows[i].matchPercentage <= 100.0)
            && (forall i, j :: 0 <= i < j < |rows| ==> rows[i].matchPercentage >= rows[j].matchPercentage)
  {
    var recs := AiLogic.GenerateCareerRecommendations(careers, interests, skills, strengths, educationLevel, marksCgpa);
    assert GeneratedRows(studentProfileId, careers, interests, skills, strengths, educationLevel, marksCgpa)
           == RecommendationRows(studentProfileId, recs);
    RowsKeepRanking(studentProfileId, recs);
  }

  /** Rows made from a ranked list keep its ranks, bounds and order. */
  lemma RowsKeepRanking(studentProfileId: string, recs: seq<CareerScore>)
    requires forall i :: 0 <= i < |recs| ==> recs[i].rank == i + 1 && 0.0 <= recs[i].matchPercentage <= 100.0
    requires forall i, j :: 0 <= i < j < |recs| ==> recs[i].matchPercentage >= recs[j].matchPercentage
    ensures var rows := RecommendationRows(studentProfileId, recs);
            && (forall i :: 0 <= i < |rows| ==>
                  rows[i].rank == i + 1 && rows[i].studentProfileId == studentProfileId
                  && 0.0 <= rows[i].matchPercentage <= 100.0)
            && (forall i, j :: 0 <= i < j < |rows| ==> rows[i].matchPercentage >= rows[j].matchPercentage)
  {
    var rows := RecommendationRows(studentProfileId, recs);
    forall i, j | 0 <= i < j < |rows| ensures rows[i].matchPercentage >= rows[j].matchPercentage {
      assert rows[i].matchPercentage == recs[i].matchPercentage;
      assert rows[j].matchPercentage == recs[j].matchPercentage;
    }
  }

  /** Every stored row names a catalogue career. */
  lemma GeneratedRowsFromCatalogue(
    studentProfileId: string, careers: seq<CareerOption>, interests: seq<string>, skills: seq<string>,
    strengths: seq<string>, educationLevel: string, marksCgpa: real, i: nat)
    requires i < |GeneratedRows(studentProfileId, careers, interests, skills, strengths, educationLevel, marksCgpa)|
    ensures exists c :: c in careers &&
              GeneratedRows(studentProfileId, careers, interests, skills, strengths, educationLevel, marksCgpa)[i]
                .careerOptionId == c.id
  {
    var recs := AiLogic.GenerateCareerRecommendations(careers, interests, skills, strengths, educationLevel, marksCgpa);
    AiLogic.RecommendationFromCatalogue(careers, interests, skills, strengths, educationLevel, marksCgpa, i);
    var j :| 0 <= j < |careers| && recs[i] ==
      AiLogic.CalculateMatchScore(careers[j], interests, skills, strengths, educationLevel, marksCgpa).(rank := i + 1);
    assert careers[j] in careers;
  }

  /** The interests of every response, in order (`response.interests?.forEach`). */
  function InterestKeys(responses: seq<Option<seq<string>>>): seq<string> {
    if responses == [] then []
    else
      var init := responses[..|responses| - 1];
      var last := responses[|responses| - 1];
      assert responses == init + [last];
      InterestKeys(init) + OrEmpty(last)
  }

  /** A career name counts when it is truthy: present and non-empty. */
  predicate IsTruthyName(name: Option<string>) {
    name.Some? && name.value != ""
  }

  /** The truthy career names of the rank-1 recommendations, in order. */
  function CareerKeys(names: seq<Option<string>>): seq<string> {
    if names == [] then []
    else
      var init := names[..|names| - 1];
      var last := names[|names| - 1];
      assert names == init + [last];
      CareerKeys(init) + (if IsTruthyName(last) then [last.value] else [])
  }

  /** The sum of the rank-1 match percentages, null read as 0 (`rec.match_percentage || 0`). */
  function MatchSum(matches: seq<Option<real>>): real {
    if matches == [] then 0.0
    else MatchSum(matches[..|matches| - 1]) + matches[|matches| - 1].GetOr(0.0)
  }

  /** `avgMatch`: the mean rank-1 match percentage, 0 when there are none. */
  function AverageMatch(matches: Option<seq<Option<real>>>): (avg: real)
    ensures matches.None? || matches.value == [] ==> avg == 0.0
    ensures matches.Some? && |matches.value| > 0 ==> avg * |matches.value| as real == MatchSum(matches.value)
  {
    if matches.Some? && |matches.value| > 0 then MatchSum(matches.value) / |matches.value| as real
    else 0.0
  }

  /** Every present percentage lies in [0, 100]. */
  predicate ValidPercentages(matches: seq<Option<real>>) {
    forall i :: 0 <= i < |matches| ==> matches[i].Some? ==> 0.0 <= matches[i].value <= 100.0
  }

  lemma {:induction false} MatchSumBounds(matches: seq<Option<real>>)
    requires ValidPercentages(matches)
    ensures 0.0 <= MatchSum(matches) <= 100.0 * |matches| as real
  {
    if matches != [] {
      MatchSumBounds(matches[..|matches| - 1]);
    }
  }

  /** The average of valid percentages is itself a percentage. */
  lemma AverageMatchBounds(matches: Option<seq<Option<real>>>)
    requires matches.Some? ==> ValidPercentages(matches.value)
    ensures 0.0 <= AverageMatch(matches) <= 100.0
  {
    if matches.Some? && |matches.value| > 0 {
      MatchSumBounds(matches.value);
    }
  }

  /** The figures `getStatistics` returns, as a function of the five query results. */
  function StatisticsOf(
    totalAssessments: Option<int>,
    responses: Option<seq<Option<seq<string>>>>,
    topCareerNames: Option<seq<Option<string>>>,
    topMatches: Option<seq<Option<real>>>,
    educationLevels: Option<seq<string>>): Statistics
  {
    Statistics(
      if totalAssessments.Some? && totalAssessments.value != 0 then totalAssessments.value else 0,
      Tally.TopEntries(Tally.Tally(InterestKeys(OrEmpty(responses))), 10),
      Tally.TopEntries(Tally.Tally(CareerKeys(OrEmpty(topCareerNames))), 10),
      AverageMatch(topMatches),
      Tally.Tally(OrEmpty(educationLevels)))
  }

  /** Each entry of a top-ten list carries the number of times its key occurs. */
  lemma TopEntryCount(keys: seq<string>, i: nat)
    requires i < |Tally.TopEntries(Tally.Tally(keys), 10)|
    ensures var e := Tally.TopEntries(Tally.Tally(keys), 10)[i];
            e.count == multiset(keys)[e.key]
  {
    var counts := Tally.Tally(keys);
    var e := Tally.TopEntries(counts, 10)[i];
    Tally.TopEntriesFromEntries(counts, 10, i);
    Tally.TallyKeys(keys);
    EntryCount(counts, e);
    Tally.TallyCounts(keys, e.key);
  }

  /** What the dashboard figures promise about the answers and recommendations they summarise. */
  lemma StatisticsMeaning(
    totalAssessments: Option<int>,
    responses: Option<seq<Option<seq<string>>>>,
    topCareerNames: Option<seq<Option<string>>>,
    topMatches: Option<seq<Option<real>>>,
    educationLevels: Option<seq<string>>)
    ensures var stats := StatisticsOf(totalAssessments, responses, topCareerNames, topMatches, educationLevels);
            && |stats.mostSelectedInterests| <= 10
            && |stats.mostRecommendedCareers| <= 10
            && (forall i :: 0 <= i < |stats.mostSelectedInterests| ==>
                  stats.mostSelectedInterests[i].count
                    == multiset(InterestKeys(OrEmpty(responses)))[stats.mostSelectedInterests[i].key])
            && (forall i :: 0 <= i < |stats.mostRecommendedCareers| ==>
                  stats.mostRecommendedCareers[i].count
                    == multiset(CareerKeys(OrEmpty(topCareerNames)))[stats.mostRecommendedCareers[i].key])
            && (forall k :: Tally.CountOf(stats.educationLevelBreakdown, k) == multiset(OrEmpty(educationLevels))[k])
            && Tally.Total(stats.educationLevelBreakdown) == |OrEmpty(educationLevels)|
  {
    var stats := StatisticsOf(totalAssessments, responses, topCareerNames, topMatches, educationLevels);
    var interestKeys := InterestKeys(OrEmpty(responses));
    var careerKeys := CareerKeys(OrEmpty(topCareerNames));
    var levels := OrEmpty(educationLevels);
    assert stats.mostSelectedInterests == Tally.TopEntries(Tally.Tally(interestKeys), 10);
    assert stats.mostRecommendedCareers == Tally.TopEntries(Tally.Tally(careerKeys), 10);
    assert stats.educationLevelBreakdown == Tally.Tally(levels);
    TopEntryCounts(interestKeys);
    TopEntryCounts(careerKeys);
    forall k ensures Tally.CountOf(Tally.Tally(levels), k) == multiset(levels)[k] {
      Tally.TallyCounts(levels, k);
    }
  }

  /** Every entry of a top-ten list carries the number of times its key occurs. */
  lemma TopEntryCounts(keys: seq<string>)
    ensures var top := Tally.TopEntries(Tally.Tally(keys), 10);
            forall i :: 0 <= i < |top| ==> top[i].count == multiset(keys)[top[i].key]
  {
    var top := Tally.TopEntries(Tally.Tally(keys), 10);
    forall i | 0 <= i < |top| ensures top[i].count == multiset(keys)[top[i].key] {
      TopEntryCount(keys, i);
    }
  }

  /** With distinct keys, an entry's count is the count looked up by its key. */
  lemma {:induction false} EntryCount(entries: seq<Tally.Entry>, e: Tally.Entry)
    requires e in entries
    requires forall i, j :: 0 <= i < j < |entries| ==> entries[i].key != entries[j].key
    ensures Tally.CountOf(entries, e.key) == e.count
  {
    if entries[0] != e {
      assert e in entries[1..];
      var j :| 0 <= j < |entries[1..]| && entries[1..][j] == e;
      assert entries[j + 1] == e;
      EntryCount(entries[1..], e);
    }
  }

  /** One more response adds its interests at the end. */
  lemma InterestKeysSnoc(rows: seq<Option<seq<string>>>, i: nat)
    requires i < |rows|
    ensures InterestKeys(rows[..i + 1]) == InterestKeys(rows[..i]) + OrEmpty(rows[i])
  {
    assert rows[..i + 1][..i] == rows[..i];
  }

  /** One more name adds itself at the end when truthy. */
  lemma CareerKeysSnoc(names: seq<Option<string>>, i: nat)
    requires i < |names|
    ensures CareerKeys(names[..i + 1]) ==
              CareerKeys(names[..i]) + (if IsTruthyName(names[i]) then [names[i].value] else [])
  {
    assert names[..i + 1][..i] == names[..i];
  }

  /** `keys.forEach(key => counts[key] = (counts[key] || 0) + 1)`: bump every key in turn. */
  method BumpAll(counts: seq<Tally.Entry>, keys: seq<string>) returns (bumped: seq<Tally.Entry>)
    ensures bumped == Tally.BumpEach(counts, keys)
  {
    bumped := counts;
    var j := 0;
    while j < |keys|
      invariant 0 <= j <= |keys|
      invariant bumped == Tally.BumpEach(counts, keys[..j])
    {
      assert keys[..j + 1][..j] == keys[..j];
      bumped := Tally.Bump(bumped, keys[j]);
      j := j + 1;
    }
    assert keys[..j] == keys;
  }

  /** `responses?.forEach(response => response.interests?.forEach(...))`: count every interest. */
  method CountInterests(rows: seq<Option<seq<string>>>) returns (interestCounts: seq<Tally.Entry>)
    ensures interestCounts == Tally.Tally(InterestKeys(rows))
  {
    interestCounts := [];
    var i := 0;
    while i < |rows|
      invariant 0 <= i <= |rows|
      invariant interestCounts == Tally.Tally(InterestKeys(rows[..i]))
    {
      InterestKeysSnoc(rows, i);
      Tally.TallyAppend(InterestKeys(rows[..i]), OrEmpty(rows[i]));
      interestCounts := BumpAll(interestCounts, OrEmpty(rows[i]));
      i := i + 1;
    }
    assert rows[..i] == rows;
  }

  /** `recommendations?.forEach(...)`: count every truthy rank-1 career name. */
  method CountCareers(names: seq<Option<string>>) returns (careerCounts: seq<Tally.Entry>)
    ensures careerCounts == Tally.Tally(CareerKeys(names))
  {
    careerCounts := [];
    var i := 0;
    while i < |names|
      invariant 0 <= i <= |names|
      invariant careerCounts == Tally.Tally(CareerKeys(names[..i]))
    {
      CareerKeysSnoc(names, i);
      var careerName := names[i];
      if careerName.Some? && careerName.value != "" {
        Tally.TallySnoc(CareerKeys(names[..i]), careerName.value);
        careerCounts := Tally.Bump(careerCounts, careerName.value);
      } else {
        assert CareerKeys(names[..i + 1]) == CareerKeys(names[..i]);
      }
      i := i + 1;
    }
    assert names[..i] == names;
  }

  /** `profiles?.forEach(...)`: count every education level. */
  method CountLevels(levels: seq<string>) returns (educationCounts: seq<Tally.Entry>)
    ensures educationCounts == Tally.Tally(levels)
  {
    educationCounts := [];
    var i := 0;
    while i < |levels|
      invariant 0 <= i <= |levels|
      invariant educationCounts == Tally.Tally(levels[..i])
    {
      ghost var done := levels[..i];
      var level := levels[i];
      assert levels[..i + 1] == done + [level];
      Tally.TallySnoc(done, level);
      educationCounts := Tally.Bump(educationCounts, level);
      i := i + 1;
    }
    assert levels[..i] == levels;
  }

  /** `getStatistics`: the dashboard figures, exactly as StatisticsOf describes them. */
  method GetStatistics(
    totalAssessments: Option<int>,
    responses: Option<seq<Option<seq<string>>>>,
    topCareerNames: Option<seq<Option<string>>>,
    topMatches: Option<seq<Option<real>>>,
    educationLevels: Option<seq<string>>)
    returns (stats: Statistics)
    ensures stats == StatisticsOf(totalAssessments, responses, topCareerNames, topMatches, educationLevels)
  {
    var interestCounts := CountInterests(OrEmpty(responses));
    var careerCounts := CountCareers(OrEmpty(topCareerNames));
    var avgMatch := AverageMatch(topMatches);
    var educationCounts := CountLevels(OrEmpty(educationLevels));
    stats := Statistics(
      if totalAssessments.Some? && totalAssessments.value != 0 then totalAssessments.value else 0,
      Tally.TopEntries(interestCounts, 10),
      Tally.TopEntries(careerCounts, 10),
      avgMatch,
      educationCounts);
  }
}
