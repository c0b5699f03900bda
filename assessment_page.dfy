/**
 * `app/assessment/page.tsx`: the four-step assessment wizard. It keeps the
 * answers accepted so far, moves between the steps, and on the last step sends
 * everything to the server in three calls before redirecting to the results.
 */
module AssessmentPage {
  import opened Wrappers
  import opened Types

  const TotalSteps := 4
  const SubmitFailed := "Failed to submit assessment. Please try again."
  const ResultsPath := "/results?studentId="

  /** The wizard's starting answers: a blank name, `'Undergraduate'`, marks 0, nothing selected. */
  const InitialData := AssessmentData(PersonalInfo("", "Undergraduate", 0.0), [], [], [])

  /** `(currentStep / totalSteps) * 100`, the width of the progress bar. */
  function Progress(step: int): (percent: real)
    ensures 1 <= step <= TotalSteps ==> 0.0 < percent <= 100.0
    ensures step == TotalSteps ==> percent == 100.0
    ensures percent * TotalSteps as real == step as real * 100.0
  {
    (step as real / TotalSteps as real) * 100.0
  }

  /** The form shown for a step, seeded with what the wizard holds for it. */
  datatype StepView =
    | PersonalInfoForm(personalInfo: PersonalInfo)
    | InterestsForm(interests: seq<string>)
    | SkillsForm(skills: seq<string>)
    | StrengthsForm(strengths: seq<string>, isSubmitting: bool)

  /** The card's body: exactly one form for steps 1 to 4, none otherwise. */
  function RenderedStep(step: int, data: AssessmentData, isSubmitting: bool): (view: Option<StepView>)
    ensures view.Some? <==> 1 <= step <= TotalSteps
    ensures view.Some? && view.value.PersonalInfoForm? ==> step == 1 && view.value.personalInfo == data.personalInfo
    ensures view.Some? && view.value.InterestsForm? ==> step == 2 && view.value.interests == data.interests
    ensures view.Some? && view.value.SkillsForm? ==> step == 3 && view.value.skills == data.skills
    ensures view.Some? && view.value.StrengthsForm? ==>
              step == 4 && view.value.strengths == data.strengths && view.value.isSubmitting == isSubmitting
  {
    if step == 1 then Some(PersonalInfoForm(data.personalInfo))
    else if step == 2 then Some(InterestsForm(data.interests))
    else if step == 3 then Some(SkillsForm(data.skills))
    else if step == 4 then Some(StrengthsForm(data.strengths, isSubmitting))
    else None
  }

  /** A server action the final step calls, with its arguments. */
  datatype ServerCall =
    | SaveStudentProfile(name: string, educationLevel: string, marksCgpa: real)
    | SaveAssessmentResponses(studentId: string, interests: seq<string>, skills: seq<string>, strengths: seq<string>)
    | GenerateRecommendations(
        studentId: string, interests: seq<string>, skills: seq<string>, strengths: seq<string>,
        educationLevel: string, marksCgpa: real)

  /** How a submission ends: a redirect to the results, or an alert. */
  datatype Outcome = Redirect(url: string) | Alert(message: string)

  /**
   * The calls a submission makes, in order: each `await` that throws ends the
   * sequence. `profileId` is the saved profile's id, None when saving it throws;
   * `responsesSaved` is false when saving the responses throws.
   */
  function SubmissionCalls(data: AssessmentData, strengths: seq<string>, profileId: Option<string>, responsesSaved: bool)
    : (calls: seq<ServerCall>)
    ensures 1 <= |calls| <= 3
    ensures calls[0] == SaveStudentProfile(data.personalInfo.name, data.personalInfo.educationLevel, data.personalInfo.marksCgpa)
    ensures |calls| >= 2 <==> profileId.Some?
    ensures |calls| == 3 <==> profileId.Some? && responsesSaved
    ensures |calls| >= 2 ==> calls[1] == SaveAssessmentResponses(profileId.value, data.interests, data.skills, strengths)
    ensures |calls| == 3 ==> calls[2] == GenerateRecommendations(
              profileId.value, data.interests, data.skills, strengths,
              data.personalInfo.educationLevel, data.personalInfo.marksCgpa)
  {
    var info := data.personalInfo;
    var profile := [SaveStudentProfile(info.name, info.educationLevel, info.marksCgpa)];
    if profileId.None? then profile
    else
      var responses := profile + [SaveAssessmentResponses(profileId.value, data.interests, data.skills, strengths)];
      if !responsesSaved then responses
      else responses + [GenerateRecommendations(profileId.value, data.interests, data.skills, strengths,
                                                info.educationLevel, info.marksCgpa)]
  }

  /** The end of a submission: the results page of the new profile when all three calls succeed. */
  function SubmissionOutcome(profileId: Option<string>, responsesSaved: bool, recommendationsSaved: bool)
    : (outcome: Outcome)
    ensures outcome.Redirect? <==> profileId.Some? && responsesSaved && recommendationsSaved
    ensures outcome.Redirect? ==> outcome.url == ResultsPath + profileId.value
    ensures outcome.Alert? ==> outcome.message == SubmitFailed
  {
    if profileId.Some? && responsesSaved && recommendationsSaved then Redirect(ResultsPath + profileId.value)
    else Alert(SubmitFailed)
  }

  /** A redirect happens only after all three calls, so the recommendations exist when the results load. */
  lemma RedirectAfterAllCalls(
    data: AssessmentData, strengths: seq<string>, profileId: Option<string>,
    responsesSaved: bool, recommendationsSaved: bool)
    requires SubmissionOutcome(profileId, responsesSaved, recommendationsSaved).Redirect?
    ensures |SubmissionCalls(data, strengths, profileId, responsesSaved)| == 3
    ensures SubmissionCalls(data, strengths, profileId, responsesSaved)[2].studentId ==
            SubmissionOutcome(profileId, responsesSaved, recommendationsSaved).url[|ResultsPath|..]
  {
    var url := SubmissionOutcome(profileId, responsesSaved, recommendationsSaved).url;
    assert url == ResultsPath + profileId.value;
    assert url[|ResultsPath|..] == profileId.value;
  }

  /** The wizard's state. */
  class AssessmentPage {
    var currentStep: int
    var isSubmitting: bool
    var assessmentData: AssessmentData

    /** The step is one of the four the card renders. */
    predicate Valid()
      reads this
    {
      1 <= currentStep <= TotalSteps
    }

    constructor()
      ensures Valid()
      ensures currentStep == 1 && !isSubmitting && assessmentData == InitialData
    {
      currentStep := 1;
      isSubmitting := false;
      assessmentData := InitialData;
    }

    /** The form the card currently shows. */
    function View(): (view: Option<StepView>)
      reads this
      ensures Valid() ==> view.Some?
    {
      RenderedStep(currentStep, assessmentData, isSubmitting)
    }

    /** `handlePersonalInfoNext`: keep the personal details and go to step 2. */
    method HandlePersonalInfoNext(info: PersonalInfo)
      modifies this
      ensures Valid()
      ensures assessmentData == old(assessmentData).(personalInfo := info)
      ensures currentStep == 2 && isSubmitting == old(isSubmitting)
    {
      assessmentData := assessmentData.(personalInfo := info);
      currentStep := 2;
    }

    /** `handleInterestsNext`: keep the interests and go to step 3. */
    method HandleInterestsNext(interests: seq<string>)
      modifies this
      ensures Valid()
      ensures assessmentData == old(assessmentData).(interests := interests)
      ensures currentStep == 3 && isSubmitting == old(isSubmitting)
    {
      assessmentData := assessmentData.(interests := interests);
      currentStep := 3;
    }

    /** `handleSkillsNext`: keep the skills and go to step 4. */
    method HandleSkillsNext(skills: seq<string>)
      modifies this
      ensures Valid()
      ensures assessmentData == old(assessmentData).(skills := skills)
      ensures currentStep == 4 && isSubmitting == old(isSubmitting)
    {
      assessmentData := assessmentData.(skills := skills);
      currentStep := 4;
    }

    /**
     * `handleBack`: one step back, never before the first. Nothing is saved, so
     * the selection on the step being left is dropped.
     */
    method HandleBack()
      modifies this
      ensures old(Valid()) ==> Valid()
      ensures currentStep == if old(currentStep) > 1 then old(currentStep) - 1 else old(currentStep)
      ensures assessmentData == old(assessmentData) && isSubmitting == old(isSubmitting)
    {
      if currentStep > 1 {
        currentStep := currentStep - 1;
      }
    }

    /**
     * `handleStrengthsSubmit`: save the profile, then the responses, then the
     * recommendations, and redirect; any failure alerts instead. The outcomes of
     * the three server calls are parameters. The strengths go to the server
     * but are not stored in the wizard's data. `submittingAtCalls` records
     * `isSubmitting` as each call goes out: set for all of them, and reset on
     * every path afterwards.
     */
    method HandleStrengthsSubmit(
      strengths: seq<string>, profileId: Option<string>, responsesSaved: bool, recommendationsSaved: bool)
      returns (calls: seq<ServerCall>, submittingAtCalls: seq<bool>, outcome: Outcome)
      modifies this
      ensures calls == SubmissionCalls(old(assessmentData), strengths, profileId, responsesSaved)
      ensures |submittingAtCalls| == |calls| && forall i :: 0 <= i < |calls| ==> submittingAtCalls[i]
      ensures outcome == SubmissionOutcome(profileId, responsesSaved, recommendationsSaved)
      ensures !isSubmitting
      ensures currentStep == old(currentStep) && assessmentData == old(assessmentData)
    {
      isSubmitting := true;
      var updatedData := assessmentData.(strengths := strengths);
      var info := updatedData.personalInfo;
      calls := [SaveStudentProfile(info.name, info.educationLevel, info.marksCgpa)];
      submittingAtCalls := [isSubmitting];
      if profileId.None? {
        outcome := Alert(SubmitFailed);
      } else {
        var id := profileId.value;
        calls := calls + [SaveAssessmentResponses(id, updatedData.interests, updatedData.skills, updatedData.strengths)];
        submittingAtCalls := submittingAtCalls + [isSubmitting];
        if !responsesSaved {
          outcome := Alert(SubmitFailed);
        } else {
          calls := calls + [GenerateRecommendations(id, updatedData.interests, updatedData.skills,
                                                    updatedData.strengths, info.educationLevel, info.marksCgpa)];
          submittingAtCalls := submittingAtCalls + [isSubmitting];
          if !recommendationsSaved {
            outcome := Alert(SubmitFailed);
          } else {
            outcome := Redirect(ResultsPath + id);
          }
        }
      }
      isSubmitting := false;
    }
  }
}
