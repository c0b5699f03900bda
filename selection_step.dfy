/**
 * The three checkbox steps of the assessment, `InterestsStep.tsx`,
 * `SkillsStep.tsx` and `StrengthsStep.tsx`. They differ only in their option
 * list and their error message, so one class models all three.
 */
module SelectionStep {
  import opened Wrappers
  import Seqs
  import AiLogic
  import Types

  const InterestOptions: seq<string> := [
    "Technology", "Healthcare", "Business", "Arts", "Science", "Education",
    "Engineering", "Finance", "Writing", "Helping Others", "Analytics",
    "Problem Solving", "Creativity", "Leadership", "Innovation", "Communication",
    "Research"]

  const SkillOptions: seq<string> := [
    "Logical Thinking", "Communication", "Creativity", "Problem Solving",
    "Leadership", "Analytical Skills", "Technical Skills", "Empathy", "Writing",
    "Attention to Detail", "Project Management", "Critical Thinking",
    "Data Analysis", "Public Speaking", "Teamwork"]

  const StrengthOptions: seq<string> := [
    "Quick Learner", "Team Player", "Independent Worker", "Detail-Oriented",
    "Innovative", "Patient", "Risk Taker", "Adaptable", "Persistent",
    "Organized", "Confident", "Empathetic", "Decisive"]

  const InterestsRequired := "Please select at least one interest"
  const SkillsRequired := "Please select at least one skill"
  const StrengthsRequired := "Please select at least one strength"

  /**
   * A checkbox click: `prev.includes(item) ? prev.filter(i => i !== item) : [...prev, item]`.
   * The clicked label flips membership and every other label keeps its own.
   */
  function Toggled(selected: seq<string>, item: string): (r: seq<string>)
    ensures item in r <==> item !in selected
    ensures forall x :: x != item ==> (x in r <==> x in selected)
    ensures item !in selected ==> r == selected + [item]
    ensures item in selected ==> |r| < |selected| && Seqs.IsSubsequence(r, selected)
    ensures item in selected ==> forall x :: x != item ==> multiset(r)[x] == multiset(selected)[x]
  {
    if item in selected then
      var kept := Seqs.Filter(selected, Seqs.Excludes([item]));
      forall x | x != item ensures multiset(kept)[x] == multiset(selected)[x] {
        Seqs.FilterMultiplicity(selected, Seqs.Excludes([item]), x);
      }
      Seqs.FilterIsSubsequence(selected, Seqs.Excludes([item]));
      Seqs.FilterComplementLength(selected, Seqs.Excludes([item]), Seqs.Includes([item]));
      assert item in Seqs.Filter(selected, Seqs.Includes([item]));
      kept
    else selected + [item]
  }

  /** Toggling never introduces a duplicate label. */
  lemma ToggleKeepsNoDuplicates(selected: seq<string>, item: string)
    requires Seqs.NoDuplicates(selected)
    ensures Seqs.NoDuplicates(Toggled(selected, item))
  {
    if item in selected {
      Seqs.FilterNoDuplicates(selected, Seqs.Excludes([item]));
    }
  }

  /** Unticking a label just ticked restores the selection exactly. */
  lemma ToggleTwiceRestores(selected: seq<string>, item: string)
    requires item !in selected
    ensures Toggled(Toggled(selected, item), item) == selected
  {
    var p := Seqs.Excludes([item]);
    Seqs.FilterConcat(selected, [item], p);
    Seqs.FilterKeepsAll(selected, p);
    Seqs.FilterCons(item, [], p);
    assert [item] + [] == [item];
  }

  /**
   * Ticking a label that was unticked from the middle of the list puts it at the
   * end: the order changes, yet the match score is the same.
   */
  lemma ReTickedScoresAlike(
    career: Types.CareerOption, interests: seq<string>, item: string,
    skills: seq<string>, strengths: seq<string>, education: string, marks: real)
    requires item in interests
    ensures AiLogic.CalculateMatchScore(career, Toggled(Toggled(interests, item), item), skills, strengths, education, marks) ==
            AiLogic.CalculateMatchScore(career, interests, skills, strengths, education, marks)
  {
    AiLogic.MatchIgnoresSelectionOrder(career, Toggled(Toggled(interests, item), item), skills, strengths,
                                       interests, skills, strengths, education, marks);
  }

  /** Clicking one of the offered labels keeps a selection drawn from the options within them. */
  lemma ToggleWithinOptions(selected: seq<string>, item: string, options: seq<string>)
    requires forall x :: x in selected ==> x in options
    requires item in options
    ensures forall x :: x in Toggled(selected, item) ==> x in options
  {
  }

  /** One checkbox step's state. */
  class SelectionStep {
    var selected: seq<string>
    var error: string
    /** The labels the step renders as checkboxes; a click toggles one of them. */
    const options: seq<string>
    const emptyMessage: string

    /** Every ticked label is one of the step's options. */
    predicate WithinOptions()
      reads this
    {
      forall x :: x in selected ==> x in options
    }

    /** `InterestsStep`, seeded with the interests saved so far. */
    constructor Interests(initialData: seq<string>)
      ensures selected == initialData && error == "" && emptyMessage == InterestsRequired
      ensures options == InterestOptions
    {
      selected := initialData;
      error := "";
      options := InterestOptions;
      emptyMessage := InterestsRequired;
    }

    /** `SkillsStep`, seeded with the skills saved so far. */
    constructor Skills(initialData: seq<string>)
      ensures selected == initialData && error == "" && emptyMessage == SkillsRequired
      ensures options == SkillOptions
    {
      selected := initialData;
      error := "";
      options := SkillOptions;
      emptyMessage := SkillsRequired;
    }

    /** `StrengthsStep`, seeded with the strengths saved so far. */
    constructor Strengths(initialData: seq<string>)
      ensures selected == initialData && error == "" && emptyMessage == StrengthsRequired
      ensures options == StrengthOptions
    {
      selected := initialData;
      error := "";
      options := StrengthOptions;
      emptyMessage := StrengthsRequired;
    }

    /** A checkbox `onChange`: flip the label and clear the error. */
    method Toggle(item: string)
      modifies this
      ensures selected == Toggled(old(selected), item) && error == ""
      ensures old(WithinOptions()) && item in options ==> WithinOptions()
    {
      if WithinOptions() && item in options {
        ToggleWithinOptions(selected, item, options);
      }
      selected := Toggled(selected, item);
      error := "";
    }

    /** `handleSubmit`: hand the selection on, or show the step's error when nothing is ticked. */
    method HandleSubmit() returns (next: Option<seq<string>>)
      modifies this
      ensures selected == old(selected)
      ensures next.None? <==> selected == []
      ensures next.Some? ==> next.value == selected && error == old(error)
      ensures next.None? ==> error == emptyMessage
    {
      if |selected| == 0 {
        error := emptyMessage;
        next := None;
      } else {
        next := Some(selected);
      }
    }
  }
}
