/**
 * `app/results/components/SkillGapAnalysis.tsx`: the required skills of a
 * career split into those the student has and those still to develop.
 */
module SkillGapAnalysis {
  import Seqs
  import AiLogic

  /** The panel below the acquired list. */
  datatype GapPanel =
    | SkillsToDevelop(gaps: seq<string>)
    | AllSkillsAcquired

  /** What the component shows. */
  datatype SkillGapView = SkillGapView(
    showAcquired: bool,
    acquired: seq<string>,
    panel: GapPanel)

  /** `requiredSkills.filter(skill => !skillGaps.includes(skill))`. */
  function AcquiredSkills(requiredSkills: seq<string>, skillGaps: seq<string>): (acquired: seq<string>)
    ensures forall s :: s in acquired <==> s in requiredSkills && s !in skillGaps
    ensures Seqs.IsSubsequence(acquired, requiredSkills)
    ensures forall s :: s !in skillGaps ==> multiset(acquired)[s] == multiset(requiredSkills)[s]
  {
    Seqs.FilterIsSubsequence(requiredSkills, Seqs.Excludes(skillGaps));
    forall s | s !in skillGaps
      ensures multiset(Seqs.Filter(requiredSkills, Seqs.Excludes(skillGaps)))[s] == multiset(requiredSkills)[s]
    {
      Seqs.FilterMultiplicity(requiredSkills, Seqs.Excludes(skillGaps), s);
    }
    Seqs.Filter(requiredSkills, Seqs.Excludes(skillGaps))
  }

  /** The rendered view: the acquired list when non-empty, then the gaps or the congratulation. */
  function SkillGapAnalysis(requiredSkills: seq<string>, skillGaps: seq<string>): (view: SkillGapView)
    ensures view.acquired == AcquiredSkills(requiredSkills, skillGaps)
    ensures view.showAcquired <==> exists s :: s in requiredSkills && s !in skillGaps
    ensures view.panel == AllSkillsAcquired <==> skillGaps == []
    ensures view.panel.SkillsToDevelop? ==> view.panel.gaps == skillGaps
  {
    var acquired := AcquiredSkills(requiredSkills, skillGaps);
    assert acquired != [] ==> acquired[0] in acquired;
    SkillGapView(|acquired| > 0, acquired,
                 if |skillGaps| > 0 then SkillsToDevelop(skillGaps) else AllSkillsAcquired)
  }

  /**
   * Fed the gaps the engine computed, the component's two lists partition the
   * required skills: "have" is exactly the required skills the student selected,
   * the two lengths add up to the requirement count, and the congratulation shows
   * exactly when the student holds every required skill.
   */
  lemma {:induction false} ViewOfEngineGaps(requiredSkills: seq<string>, studentSkills: seq<string>)
    ensures var gaps := AiLogic.IdentifySkillGaps(requiredSkills, studentSkills);
            var acquired := AcquiredSkills(requiredSkills, gaps);
            && acquired == Seqs.Filter(requiredSkills, Seqs.Includes(studentSkills))
            && |acquired| + |gaps| == |requiredSkills|
            && (SkillGapAnalysis(requiredSkills, gaps).panel == AllSkillsAcquired <==>
                  forall s :: s in requiredSkills ==> s in studentSkills)
  {
    var gaps := AiLogic.IdentifySkillGaps(requiredSkills, studentSkills);
    Seqs.FilterCongruent(requiredSkills, Seqs.Excludes(gaps), Seqs.Includes(studentSkills));
    assert |gaps| + AiLogic.CountMatches(requiredSkills, studentSkills) == |requiredSkills|;
    if gaps != [] {
      assert gaps[0] in gaps;
    }
  }
}
