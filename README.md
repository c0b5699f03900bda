# Career guidance: a verified model of the matching engine and its screens

The application asks a student for their personal details, then for their
interests, skills and strengths (one checkbox step each). It scores every
career in the catalogue against the answers and stores the three best matches.
It then shows each match with its skill gaps and roadmap. Administrators edit
the career and question catalogues, browse the submissions and read
aggregate statistics.

This project models in Dafny:

- **The engine** (`AiLogic`, from `app/actions/ai-logic.ts` and the education
  lookup of `lib/utils.ts`).
  - It turns matched interests, skills and strengths into 10, 8 and 6 points each.
  - It adds an academic bonus on a dual CGPA/percentage scale.
  - It normalises each dimension against the career's maximum and weights them 0.40/0.35/0.15/0.10.
  - It penalises a too-low education level by 0.7, clamps to [0, 100] and assigns a confidence tier.
  - It ranks by a stable descending sort and keeps the top three.
- **The helpers around it.**
  - `Utils`: colours, truncation, the education ordering.
  - `SkillGapAnalysis`: the acquired/missing skill panels.
  - `CareerRoadmap`: the roadmap line parser.
- **The admin forms** (`CareerManagement`, `QuestionManagement`).
  - Each is a class whose fields are the component's state.
  - The comma-list parser and serialiser round-trip.
- **The assessment wizard.**
  - `PersonalInfoStep` is the validator.
  - `SelectionStep` is one class for the interests, skills and strengths steps.
  - `AssessmentPage` is the four-step state machine and the ordered server calls of the final submit.
- **The server-side aggregation** (`AssessmentActions`, with the counter model `Tally`).
  - It holds the recommendation rows written after scoring.
  - `GetStatistics` counts interests, top careers and education levels in loops, picks the top ten and averages the match.
- **The submissions list** (`StudentSubmissions`): the rank-1 lookup, and the in-place by-rank insertion sort of the detail view.

Shared modules:

- `Wrappers`: `Option`.
- `Seqs`: `filter` and subsequences.
- `Text`: JavaScript's `trim`, `split`, `join` and `parseInt`.
- `StableSort`: the stable sort of `Array.prototype.sort`. Its uniqueness lemma shows that any stable sort by the same key gives the same result.
- `Types`: the records of `lib/types.ts`.

Database reads and writes, browser dialogs and navigation become parameters or
results of the methods that call them. For example, `fetched: Option<...>` is
None when the fetch throws, and `saveSucceeded` is false when the save throws.

## Model

| member | source | states |
|---|---|---|
| AiLogic.CountMatches | app/actions/ai-logic.ts:41-51 | the match count is at most the requirement length; it equals the length iff every required label was selected, and is 0 iff none was |
| AiLogic.AcademicBonus | app/actions/ai-logic.ts:61-68 | marks up to 10 are a CGPA (bonus = marks·15/10), higher marks a percentage (bonus = marks·15/100); for marks in [0,100] the bonus lies in [0,15] |
| AiLogic.CalculateRawScores | app/actions/ai-logic.ts:33-79 | each dimension lies between 0 and its points-per-match times the requirement length, and the total is the sum of the three dimensions and the bonus |
| AiLogic.Normalize | app/actions/ai-logic.ts:98-101 | an empty requirement (maximum 0) normalises to 0; otherwise the fraction times the maximum is the actual score, within [0,1] |
| AiLogic.CalculateWeightedScore | app/actions/ai-logic.ts:90-113 | with every dimension between 0 and its maximum (points per match times requirement length, 15 for the bonus) the weighted score lies in [0,100], and full marks in every dimension of a career with no empty requirement list weigh exactly 100 |
| AiLogic.PerfectStudentWeighsFull | app/actions/ai-logic.ts:90-113 | a student who selected every required interest, skill and strength of such a career, with CGPA 10 or 100 percent, weighs exactly 100 |
| AiLogic.WeightedScoreBounds | app/actions/ai-logic.ts:90-113 | for marks in [0,100] the weighted score lies in [0,100] |
| AiLogic.EmptyRequirementNeutral | app/actions/ai-logic.ts:92-101 | a dimension whose requirement list is empty contributes the same whatever the student selected for it |
| AiLogic.DetermineConfidence | app/actions/ai-logic.ts:118-122 | high iff the percentage is at least 75, medium iff in [50,75), low iff below 50 |
| AiLogic.ProgressColorMatchesConfidence | lib/utils.ts:45-49 | the progress-bar colour is green/yellow/red exactly when the confidence is high/medium/low |
| AiLogic.IdentifySkillGaps | app/actions/ai-logic.ts:127-132 | the gaps are the subsequence of required skills the student lacks, with every lacking skill kept with its multiplicity, and gaps plus matches make up the requirement |
| AiLogic.MeetsEducationRequirement | app/actions/ai-logic.ts:137-147 | the requirement fails iff the minimum is set (not null or empty) and the student's level number is below the minimum's |
| AiLogic.UnknownLevelPenalised | app/actions/ai-logic.ts:137-147 | an unrecognised student level fails every recognised minimum |
| AiLogic.Clamp | app/actions/ai-logic.ts:178 | the result lies in [0,100] and a value already in range is unchanged |
| AiLogic.CalculateMatchScore | app/actions/ai-logic.ts:152-194 | the score keeps its career with rank 0, the percentage lies in [0,100] for every input, the tier follows the 75/50 thresholds of the clamped value, and the gaps are the missing required skills |
| AiLogic.EducationPenalty | app/actions/ai-logic.ts:173-175 | for marks in [0,100] the percentage is exactly 0.7 of the weighted score when the education requirement fails, and the weighted score otherwise |
| AiLogic.RawScoreIsPointSum | app/actions/ai-logic.ts:186-193 | the stored raw score is 10, 8 and 6 points per matched interest, skill and strength plus the academic bonus |
| AiLogic.CountMatchesByMembership | app/actions/ai-logic.ts:41-51 | two selections with the same members give the same count |
| AiLogic.MatchIgnoresSelectionOrder | app/actions/ai-logic.ts:152-194 | the whole match score depends on the selections only through their membership |
| AiLogic.RankCareers | app/actions/ai-logic.ts:199-208 | min(n, topN) results, ranks 1, 2, 3 … by position, non-increasing percentage, each result the stable sort's entry at that position with its rank set |
| AiLogic.RankedFromInput | app/actions/ai-logic.ts:199-208 | every ranked entry is an input score with only its rank changed |
| AiLogic.RankingKeepsTieOrder | app/actions/ai-logic.ts:201 | scores with equal percentage keep their input order |
| AiLogic.HigherScoreRankedFirst | app/actions/ai-logic.ts:199-208 | a strictly higher percentage gets a strictly better (smaller) rank |
| AiLogic.ScoreAll | app/actions/ai-logic.ts:222-233 | every career is scored exactly once, in catalogue order, each with rank 0 and a percentage in [0,100] |
| AiLogic.GenerateCareerRecommendations | app/actions/ai-logic.ts:213-237 | min(number of careers, 3) recommendations ranked 1, 2, 3 by position, percentages in [0,100] and non-increasing; an empty catalogue gives none |
| AiLogic.RecommendationFromCatalogue | app/actions/ai-logic.ts:213-237 | every recommendation is the match score of some catalogue career, ranked |
| AiLogic.ExampleWeighted | app/actions/ai-logic.ts:90-113 | a career needing Technology and Science, Logical Thinking and no strengths, against a student with Technology, Logical Thinking and CGPA 8.5, weighs 63.5 |
| AiLogic.ExampleMediumMatch | app/actions/ai-logic.ts:152-194 | that student with no minimum education scores 63.5, medium, with no skill gaps |
| AiLogic.ExamplePenalisedMatch | app/actions/ai-logic.ts:173-181 | with minimum Graduate and a High School student the score is 44.45, low |
| Utils.EducationLevelToNumber | lib/utils.ts:62-69 | High School, Undergraduate and Graduate map to 1, 2 and 3; every other string maps to 0 |
| Utils.EducationOrdering | lib/utils.ts:63-68 | the three levels are strictly ordered and unknown strings rank below all of them |
| Utils.GetProgressColor | lib/utils.ts:45-49 | green iff at least 75, yellow iff in [50,75), red iff below 50 |
| Utils.TruncateText | lib/utils.ts:54-57 | text no longer than the limit is unchanged; longer text becomes its first maxLength characters followed by "...", of length maxLength + 3 (a negative limit keeps no characters) |
| Utils.GetConfidenceColor | lib/utils.ts:17-26 | every tier has a non-empty class string |
| Utils.GetConfidenceBadgeColor | lib/utils.ts:31-40 | every tier has a non-empty class string |
| Utils.ConfidenceColorsDistinct | lib/utils.ts:17-40 | both colour maps give different strings to different tiers |
| StableSort.SortDescending | app/actions/ai-logic.ts:201 | the in-place sort with comparator b − a rearranges its input: same length and the same elements with the same multiplicities |
| StableSort.SortIsDescending | app/actions/ai-logic.ts:201 | the sort with comparator b − a yields non-increasing keys |
| StableSort.SortIsStable | app/actions/ai-logic.ts:201 | elements with equal keys keep their input order |
| StableSort.StableSortUnique | app/actions/ai-logic.ts:201 | any descending sequence with the same elements of each key, in the same order, is exactly the sort's result |
| Text.ParseInt | app/admin/components/QuestionManagement.tsx:163 | `parseInt` without radix is NaN exactly when no digit follows the optional leading whitespace and sign |
| Text.ParseIntDecimal | app/admin/components/QuestionManagement.tsx:163 | parsing the decimal text of n gives n |
| Text.ParseIntNegativeDecimal | app/admin/components/QuestionManagement.tsx:163 | parsing a minus sign followed by the decimal text of n gives −n |
| Text.Trim | app/results/components/CareerRoadmap.tsx:15-16 | the result neither starts nor ends with white space, holds only characters of the input, and text that is already trimmed is unchanged |
| Text.TrimKeepsMiddle | app/results/components/CareerRoadmap.tsx:15-16 | the trimmed text is one contiguous slice of the input with only white space before it and only white space after it, so nothing inside is removed or reordered |
| Text.BlankIffAllWhiteSpace | app/assessment/components/PersonalInfoStep.tsx:27 | a string trims to empty iff all of its characters are white space |
| Text.JoinSplit | app/results/components/CareerRoadmap.tsx:14 | joining the pieces of a split with the separator restores the string |
| Text.SplitJoin | app/results/components/CareerRoadmap.tsx:14 | splitting a join of separator-free pieces restores the pieces |
| Text.ParseCommaList | app/admin/components/CareerManagement.tsx:49-51 | the entries are a subsequence (same order) of the trimmed comma pieces, every non-empty trimmed piece is kept as often as it occurs (duplicates included), and each entry is non-empty, trimmed and comma-free |
| Text.CommaListRoundTrip | app/admin/components/CareerManagement.tsx:76-78 | parsing the `join(', ')` of non-empty, trimmed, comma-free labels gives back the same list |
| CareerRoadmap.StripStepNumber | app/results/components/CareerRoadmap.tsx:16 | a leading run of digits, a dot and white space is removed once; a line without it is unchanged |
| CareerRoadmap.StepText | app/results/components/CareerRoadmap.tsx:16 | the step text is the line with its step number removed, then trimmed; it has no white space at either end |
| CareerRoadmap.RoadmapSteps | app/results/components/CareerRoadmap.tsx:8-16 | a null or empty roadmap gives no steps; otherwise the i-th step is the step text of the i-th non-blank line, one step per non-blank line, each trimmed |
| CareerRoadmap.StepBadge | app/results/components/CareerRoadmap.tsx:25-29 | the badge of the step at index i is i + 1, whatever numeral the text had |
| CareerRoadmap.NumberedLine | app/results/components/CareerRoadmap.tsx:16 | the step text of "N. text" is the text, for any digits N and trimmed text |
| CareerRoadmap.NumberedLineAnySpacing | app/results/components/CareerRoadmap.tsx:16 | "N." followed by any white space (none, tabs, spaces) and a trimmed text shows as the text, so "1.foo" and "1.\tfoo" lose their prefix too |
| CareerRoadmap.BareNumberIsEmptyStep | app/results/components/CareerRoadmap.tsx:15-16 | a line that is only "3." passes the blank filter but shows as an empty step |
| CareerRoadmap.IndentedNumberKept | app/results/components/CareerRoadmap.tsx:16 | a line that starts with white space keeps its numeral and is only trimmed |
| CareerRoadmap.NumberedLineIsStep | app/results/components/CareerRoadmap.tsx:15 | a numbered line is never blank, so the filter keeps it |
| CareerRoadmap.StepTextsOfNumberedLines | app/results/components/CareerRoadmap.tsx:16 | stripping numbered lines gives back their texts |
| CareerRoadmap.RoadmapRoundTrip | app/results/components/CareerRoadmap.tsx:13-16 | a roadmap written as numbered lines of trimmed one-line texts parses back to exactly those texts |
| SkillGapAnalysis.AcquiredSkills | app/results/components/SkillGapAnalysis.tsx:9 | the acquired skills are the subsequence of required skills not among the gaps, each kept as often as it is required |
| SkillGapAnalysis.SkillGapAnalysis | app/results/components/SkillGapAnalysis.tsx:18-53 | the "skills you have" list is the required skills that are not gaps, in requirement order; that panel shows iff some required skill is not a gap; the congratulation shows iff there are no gaps, otherwise every gap is listed |
| SkillGapAnalysis.ViewOfEngineGaps | app/results/components/SkillGapAnalysis.tsx:9 | with the engine's gaps, acquired skills are exactly the required skills the student has, the two lengths add up to the requirement, and the congratulation shows iff the student has every required skill |
| CareerManagement.EmptyForm | app/admin/components/CareerManagement.tsx:100-113 | the reset form is blank with minimum education Undergraduate |
| CareerManagement.CareerDataOf | app/admin/components/CareerManagement.tsx:46-55 | the submitted record copies the text fields, and each list is the comma list parsed from its form field, so it holds only non-empty, trimmed, comma-free labels in the typed order |
| CareerManagement.FormOf | app/admin/components/CareerManagement.tsx:71-84 | the edit form copies the career, with nulls shown as "" and a missing minimum as Undergraduate, and each requirement list joined with ", " |
| CareerManagement.EditSubmitRoundTrip | app/admin/components/CareerManagement.tsx:49-81 | editing and saving a career untouched sends back its own lists and name, with nulls replaced by the form defaults |
| CareerManagement.EditAddsDefaultMinimum | app/admin/components/CareerManagement.tsx:79 | a career with no minimum education is saved with Undergraduate after an untouched edit |
| CareerManagement.Saved | app/admin/components/CareerManagement.tsx:58-62 | a saved record becomes a catalogue row with its id and non-null text fields |
| CareerManagement.SaveEditSaveStable | app/admin/components/CareerManagement.tsx:43-84 | after one save, editing and saving again untouched sends the same record |
| CareerManagement.CareerManagement.constructor | app/admin/components/CareerManagement.tsx:12-26 | no careers, loading, form hidden, nothing being edited, the empty form |
| CareerManagement.CareerManagement.LoadCareers | app/admin/components/CareerManagement.tsx:32-41 | the fetched list replaces the careers, a failed fetch keeps them, and loading stops either way |
| CareerManagement.CareerManagement.ResetForm | app/admin/components/CareerManagement.tsx:100-113 | restores the empty form, clears the edited career and hides the form |
| CareerManagement.CareerManagement.ToggleForm | app/admin/components/CareerManagement.tsx:123 | the header button flips the form's visibility and keeps the form and the edited career, so hiding and showing again reopens an edit in progress |
| CareerManagement.CareerManagement.HandleSubmit | app/admin/components/CareerManagement.tsx:43-69 | sends an update with the edited career's id when one is set and a create otherwise; on success it reloads and resets, on failure it alerts and keeps the form |
| CareerManagement.CareerManagement.HandleEdit | app/admin/components/CareerManagement.tsx:71-84 | records the edited career, fills the form from it and shows the form |
| CareerManagement.CareerManagement.HandleDelete | app/admin/components/CareerManagement.tsx:86-98 | deletes only after confirmation, reloads on success and alerts on failure |
| QuestionManagement.EmptyForm | app/admin/components/QuestionManagement.tsx:88-97 | the reset form is blank, of type interests, at order 0 |
| QuestionManagement.QuestionDataOf | app/admin/components/QuestionManagement.tsx:42-47 | the submitted record copies text, type and order, and its options are the comma list parsed from the options field: non-empty, trimmed, comma-free labels in the typed order |
| QuestionManagement.OrderIndexOrZero | app/admin/components/QuestionManagement.tsx:69 | a null order index edits as 0 |
| QuestionManagement.FormOf | app/admin/components/QuestionManagement.tsx:63-72 | the edit form copies text and type, joins the options with ", " and shows a null order as 0 |
| QuestionManagement.EditSubmitRoundTrip | app/admin/components/QuestionManagement.tsx:45-69 | editing and saving a question untouched sends back its own options, text and type |
| QuestionManagement.OrderIndexInput | app/admin/components/QuestionManagement.tsx:163 | unparsable order text becomes 0, and parsable text becomes its number |
| QuestionManagement.OrderIndexInputReadsNumbers | app/admin/components/QuestionManagement.tsx:163 | typing n or −n stores n or −n |
| QuestionManagement.GroupQuestions | app/admin/components/QuestionManagement.tsx:99-103 | each group holds exactly the questions of its type, in list order |
| QuestionManagement.GroupsPartition | app/admin/components/QuestionManagement.tsx:99-103 | the three groups partition the questions: their multisets add up to the list's, and so do their lengths |
| QuestionManagement.QuestionManagement.constructor | app/admin/components/QuestionManagement.tsx:12-22 | no questions, loading, form hidden, nothing being edited, the empty form |
| QuestionManagement.QuestionManagement.Grouped | app/admin/components/QuestionManagement.tsx:99-103 | the group lengths add up to the number of questions |
| QuestionManagement.QuestionManagement.LoadQuestions | app/admin/components/QuestionManagement.tsx:28-37 | the fetched list replaces the questions, a failed fetch keeps them, and loading stops either way |
| QuestionManagement.QuestionManagement.ResetForm | app/admin/components/QuestionManagement.tsx:88-97 | restores the empty form, clears the edited question and hides the form |
| QuestionManagement.QuestionManagement.ToggleForm | app/admin/components/QuestionManagement.tsx:113 | the header button flips the form's visibility and keeps the form and the edited question, so hiding and showing again reopens an edit in progress |
| QuestionManagement.QuestionManagement.SetOrderIndex | app/admin/components/QuestionManagement.tsx:163 | the order field stores parseInt of the text, or 0 when that is NaN; nothing else changes |
| QuestionManagement.QuestionManagement.HandleSubmit | app/admin/components/QuestionManagement.tsx:39-61 | updates the edited question by id when one is set and creates otherwise; reloads and resets on success, alerts on failure |
| QuestionManagement.QuestionManagement.HandleEdit | app/admin/components/QuestionManagement.tsx:63-72 | records the edited question, fills the form from it and shows the form |
| QuestionManagement.QuestionManagement.HandleDelete | app/admin/components/QuestionManagement.tsx:74-86 | deletes only after confirmation, reloads on success and alerts on failure |
| Tally.Bump | app/actions/assessment.ts:213 | a bump grows the total of all counts by exactly one |
| Tally.BumpKeys | app/actions/assessment.ts:213 | bumping an existing key keeps the key list; bumping a new key appends it at the end |
| Tally.BumpCount | app/actions/assessment.ts:213 | a bump adds one to the bumped key's count and leaves every other count unchanged |
| Tally.Tally | app/actions/assessment.ts:210-215 | the counts add up to the number of keys counted |
| Tally.TallyCounts | app/actions/assessment.ts:210-215 | each key's count is the number of times it occurs |
| Tally.TallyKeys | app/actions/assessment.ts:210-215 | the counter lists exactly the keys that occur, each once, every count positive |
| Tally.TallyAppend | app/actions/assessment.ts:211-215 | counting a + b is counting a and then bumping each key of b |
| Tally.TallyKeyOrder | app/actions/assessment.ts:256 | keys are listed in the order of their first occurrence |
| Tally.TopEntries | app/actions/assessment.ts:256-261 | at most n entries, by non-increasing count, a prefix of the stable sort of the entries |
| Tally.TopEntriesFromEntries | app/actions/assessment.ts:256-261 | every top entry is one of the counted entries |
| Tally.TopEntriesAreTop | app/actions/assessment.ts:256-261 | no entry left out of the top list has a larger count than an entry in it |
| AssessmentActions.RecommendationRows | app/actions/assessment.ts:91-98 | one row per score, carrying the student id and the score's career id, percentage, confidence, gaps and rank unchanged |
| AssessmentActions.GeneratedRowsRanked | app/actions/assessment.ts:69-98 | a finished assessment stores min(number of careers, 3) rows for the student, ranked 1, 2, 3, percentages in [0,100] and non-increasing |
| AssessmentActions.GeneratedRowsFromCatalogue | app/actions/assessment.ts:81-98 | every stored row refers to a catalogue career |
| AssessmentActions.AverageMatch | app/actions/assessment.ts:239-241 | 0 when there are no rank-1 rows; otherwise the average times the row count is the sum, with a null percentage counted as 0 |
| AssessmentActions.AverageMatchBounds | app/actions/assessment.ts:239-241 | the average of valid percentages is itself in [0,100] |
| AssessmentActions.StatisticsMeaning | app/actions/assessment.ts:254-264 | the top lists have at most 10 entries, each with the occurrence count of its key; the education breakdown counts each level's occurrences and adds up to the number of profiles |
| AssessmentActions.TopEntryCount | app/actions/assessment.ts:256-261 | each top-ten entry carries the number of times its key occurs |
| AssessmentActions.InterestKeysSnoc | app/actions/assessment.ts:211-212 | one more response adds its interests, or nothing when they are null, at the end |
| AssessmentActions.CareerKeysSnoc | app/actions/assessment.ts:226-230 | one more rank-1 row adds its career name at the end exactly when the name is truthy |
| AssessmentActions.BumpAll | app/actions/assessment.ts:212-214 | the loop's counter is the counts bumped by each key in turn |
| AssessmentActions.CountInterests | app/actions/assessment.ts:210-215 | the nested loops build exactly the counter of all interests of all responses |
| AssessmentActions.CountCareers | app/actions/assessment.ts:225-231 | the loop builds exactly the counter of the truthy rank-1 career names |
| AssessmentActions.CountLevels | app/actions/assessment.ts:248-252 | the loop builds exactly the counter of the education levels |
| AssessmentActions.GetStatistics | app/actions/assessment.ts:198-269 | the figures are exactly StatisticsOf the query results: the total count or 0, the two top-ten lists, the average and the breakdown |
| PersonalInfoStep.ValidationErrors | app/assessment/components/PersonalInfoStep.tsx:24-43 | a name error iff the trimmed name is empty; a marks error iff the marks are not positive (the "valid marks" message) or above 100 (the range message); no other keys |
| PersonalInfoStep.AcceptedIff | app/assessment/components/PersonalInfoStep.tsx:24-43 | the form is valid iff the trimmed name is non-empty and 0 < marks ≤ 100 |
| PersonalInfoStep.CgpaAndPercentageAccepted | app/assessment/components/PersonalInfoStep.tsx:31-39 | a CGPA (8.5) and a percentage (85) are both accepted: the scale is not checked |
| PersonalInfoStep.MarksInput | app/assessment/components/PersonalInfoStep.tsx:85 | input that does not parse as a number is stored as 0, so it is later rejected |
| PersonalInfoStep.PersonalInfoStep.constructor | app/assessment/components/PersonalInfoStep.tsx:15-16 | the form starts from the initial data with no errors |
| PersonalInfoStep.PersonalInfoStep.SetName | app/assessment/components/PersonalInfoStep.tsx:64 | the name field stores the typed text; nothing else changes |
| PersonalInfoStep.PersonalInfoStep.SetEducationLevel | app/assessment/components/PersonalInfoStep.tsx:72 | the education field stores the chosen level; nothing else changes |
| PersonalInfoStep.PersonalInfoStep.SetMarks | app/assessment/components/PersonalInfoStep.tsx:85 | the marks field stores parseFloat of the value, or 0 when that is NaN; nothing else changes |
| PersonalInfoStep.PersonalInfoStep.Validate | app/assessment/components/PersonalInfoStep.tsx:24-43 | the recorded errors are ValidationErrors of the form, and the result is true iff the name is non-blank and 0 < marks ≤ 100 |
| PersonalInfoStep.PersonalInfoStep.HandleSubmit | app/assessment/components/PersonalInfoStep.tsx:45-50 | the form data is passed on unchanged exactly when validation succeeds |
| SelectionStep.Toggled | app/assessment/components/InterestsStep.tsx:36-43 | the clicked label flips membership and every other label keeps its membership; an absent label is appended; a present one is removed everywhere while the rest keep their order and multiplicity |
| SelectionStep.ToggleKeepsNoDuplicates | app/assessment/components/SkillsStep.tsx:34-41 | toggling keeps a duplicate-free selection duplicate-free |
| SelectionStep.ToggleTwiceRestores | app/assessment/components/StrengthsStep.tsx:34-41 | ticking and then unticking an absent label restores the selection |
| SelectionStep.ReTickedScoresAlike | app/assessment/components/InterestsStep.tsx:36-43 | unticking and re-ticking an interest moves it to the end but leaves every match score unchanged |
| SelectionStep.SelectionStep.Interests | app/assessment/components/InterestsStep.tsx:12-34 | the interests step starts from the saved interests with no error and offers the seventeen interest labels |
| SelectionStep.SelectionStep.Skills | app/assessment/components/SkillsStep.tsx:12-32 | the skills step starts from the saved skills with no error and offers the fifteen skill labels |
| SelectionStep.SelectionStep.Strengths | app/assessment/components/StrengthsStep.tsx:14-32 | the strengths step starts from the saved strengths with no error and offers the thirteen strength labels |
| SelectionStep.SelectionStep.Toggle | app/assessment/components/InterestsStep.tsx:36-43 | a click toggles the label and clears the error; clicking one of the step's own options keeps a selection drawn from them within them |
| SelectionStep.ToggleWithinOptions | app/assessment/components/InterestsStep.tsx:62-74 | the checkboxes are rendered from the option list, so toggling an offered label never adds a label outside the list |
| SelectionStep.SelectionStep.HandleSubmit | app/assessment/components/StrengthsStep.tsx:43-50 | an empty selection sets the step's error and passes nothing on; otherwise the current selection is passed on |
| AssessmentPage.Progress | app/assessment/page.tsx:91-92 | the progress is step/4·100: positive and at most 100 for steps 1–4, and 100 on the last step |
| AssessmentPage.RenderedStep | app/assessment/page.tsx:139-167 | exactly one form is shown for steps 1–4, seeded with the data the wizard holds for that step |
| AssessmentPage.SubmissionCalls | app/assessment/page.tsx:44-83 | the profile is saved first; the responses follow only once it succeeded, and the recommendations only once both did, all with the profile's id and the submitted strengths |
| AssessmentPage.SubmissionOutcome | app/assessment/page.tsx:76-79 | the results page of the new profile opens iff all three calls succeed; otherwise the failure alert shows |
| AssessmentPage.RedirectAfterAllCalls | app/assessment/page.tsx:66-76 | a redirect happens only after the recommendations were generated, for the student id in the URL |
| AssessmentPage.AssessmentPage.constructor | app/assessment/page.tsx:16-27 | step 1, not submitting, a blank name, Undergraduate, marks 0 and empty lists |
| AssessmentPage.AssessmentPage.View | app/assessment/page.tsx:139-167 | a valid step always shows a form |
| AssessmentPage.AssessmentPage.HandlePersonalInfoNext | app/assessment/page.tsx:29-32 | stores the personal details only and moves to step 2 |
| AssessmentPage.AssessmentPage.HandleInterestsNext | app/assessment/page.tsx:34-37 | stores the interests only and moves to step 3 |
| AssessmentPage.AssessmentPage.HandleSkillsNext | app/assessment/page.tsx:39-42 | stores the skills only and moves to step 4 |
| AssessmentPage.AssessmentPage.HandleBack | app/assessment/page.tsx:85-89 | goes back one step unless on the first, keeping the step in 1–4 and the data unchanged |
| AssessmentPage.AssessmentPage.HandleStrengthsSubmit | app/assessment/page.tsx:44-83 | makes the calls SubmissionCalls prescribes with submitting set during each, ends as SubmissionOutcome says, resets submitting, and leaves the stored strengths unchanged |
| StudentSubmissions.FirstRankOne | app/admin/components/StudentSubmissions.tsx:44 | the index found is the first with rank 1, and none is found iff no recommendation has rank 1 |
| StudentSubmissions.GetTopRecommendation | app/admin/components/StudentSubmissions.tsx:43-46 | the top recommendation is a rank-1 recommendation of the submission, and there is none iff no recommendation has rank 1 |
| StudentSubmissions.TopIsBestMatch | app/admin/components/StudentSubmissions.tsx:43-46 | when distinct ranks follow the match percentage, the top recommendation has the highest percentage |
| StudentSubmissions.TopCareerCell | app/admin/components/StudentSubmissions.tsx:169 | shows the top recommendation's career name when present and non-empty, and "N/A" exactly otherwise: with no top recommendation, or with a null or empty name |
| StudentSubmissions.TopMatchCell | app/admin/components/StudentSubmissions.tsx:172-174 | "N/A" iff there is no rank-1 recommendation; otherwise the percentage of the top recommendation, the first rank-1 row that `find` returns |
| StudentSubmissions.SwapKeepsGroups | app/admin/components/StudentSubmissions.tsx:97-98 | swapping neighbours of different rank keeps the order within every rank |
| StudentSubmissions.RankSortFacts | app/admin/components/StudentSubmissions.tsx:97-98 | the by-rank sort is ascending, a permutation, and keeps equal ranks in stored order |
| StudentSubmissions.SortByRank | app/admin/components/StudentSubmissions.tsx:97-98 | the in-place insertion sort leaves the array equal to the stable ascending-rank sort of its old contents |
| StudentSubmissions.FirstRankOneHeadsGroup | app/admin/components/StudentSubmissions.tsx:44 | the row `find(r => r.rank === 1)` returns is the first of the rank-1 rows in list order, and there is none iff there are no rank-1 rows |
| StudentSubmissions.SortKeepsTopRecommendation | app/admin/components/StudentSubmissions.tsx:97-98 | sorting a submission's recommendations by rank leaves its top recommendation (the list view's `find`) unchanged, whatever the ranks |
| StudentSubmissions.RankedRecommendations | app/admin/components/StudentSubmissions.tsx:96-98 | the detail list is the stable ascending-rank sort of the submission's recommendations |
| StudentSubmissions.StudentSubmissions.constructor | app/admin/components/StudentSubmissions.tsx:24-26 | no submissions, loading, nothing selected |
| StudentSubmissions.StudentSubmissions.LoadSubmissions | app/admin/components/StudentSubmissions.tsx:32-41 | the fetched list replaces the submissions, a failed fetch keeps them, and loading stops either way |
| StudentSubmissions.StudentSubmissions.ViewDetails | app/admin/components/StudentSubmissions.tsx:178 | selects the submission for the detail view |
| StudentSubmissions.StudentSubmissions.BackToList | app/admin/components/StudentSubmissions.tsx:64-65 | clears the selection |

## Left out

- Database access (`supabase`), `getAllCareers` and the other data-access wrappers are not part of this model. Their results are parameters: `Option` values that are None when a call throws, or booleans for writes that may fail.
- `Promise.all` in `generateCareerRecommendations` is a sequential map (`ScoreAll`). The scoring calls share no state.
- Floating point. All engine arithmetic is exact `real` arithmetic, so IEEE-754 rounding is not modelled. `formatPercentage`/`toFixed` are display formatting and are not modelled. The match cell carries the raw percentage instead.
- `cn` wraps the clsx library and is not modelled.
- Rendering is not modelled, apart from the choices the contracts state:
  - JSX layout
  - the step indicator circles
  - the `.toUpperCase()` of confidence labels
  - the `toLocaleDateString` dates
  - the displayed submission total (`submissions.length`)
- Disabled controls while submitting (`disabled={isSubmitting}` on the strengths checkboxes and buttons) are not modelled. They are a browser rule that suppresses events, not logic of the component.
- `alert`, `confirm`, `router.push` and `console.error`:
  - alerts and redirects are results of the methods;
  - the confirmation is a parameter;
  - logging is dropped.
- PersonalInfoStep.PersonalInfoStep.SetMarks: receives what `parseFloat` made of the typed text, as an `Option<real>` (None for NaN). It does not model `parseFloat`'s text scanning.
- Text.ParseInt: reads decimal digits only. It does not model the `0x`/`0X` hexadecimal prefix that `parseInt` without a radix also accepts, and it returns unbounded integers where JavaScript would return an imprecise float for very long digit runs.
- Utils.EducationLevelToNumber: does not model inherited property names such as `"constructor"` or `"toString"`. For those, the object lookup in the source returns a function instead of falling back to 0.
- Tally.TallyKeyOrder: insertion order is the order `Object.entries` uses for non-numeric keys. It does not model JavaScript listing integer-like keys (such as `"42"`) first in ascending numeric order, nor the special `__proto__` key.
- Tally.Tally: counts on a map from string to count. The source's `(counts[key] || 0) + 1` runs on a plain object (`{}`, lines 213, 229 and 251 of `app/actions/assessment.ts`). For an inherited name such as `"constructor"` or `"toString"` the lookup finds a function, so the stored value becomes a string (the function's text followed by "1"). For `"__proto__"` the assignment stores nothing. The model counts these keys like any other.
- Utils.TruncateText: counts characters as Unicode scalar values (Dafny `char`). JavaScript's `length` and `substring` count UTF-16 code units, so text with characters outside the Basic Multilingual Plane (emoji, for example) is cut at a different place, and can be cut inside a surrogate pair.
- PersonalInfoStep.PersonalInfoStep.HandleSubmit: does not model the browser's own constraint validation of the form's inputs. The name input is `required` (line 62 of `app/assessment/components/PersonalInfoStep.tsx`), so an empty name blocks the submit before `handleSubmit` runs; in the program "Name is required" is therefore only ever shown for a name of white space alone, while `ValidationErrors` and `Validate` also record it for "". The marks input carries `required min="0" max="100" step="0.01"` (lines 79-84). The browser blocks the submit for an empty field, for values above 100 and for values off the 0.01 step such as 8.555. Because the input shows `formData.marks_cgpa || ''`, a value of 0 shows as empty and is blocked as missing. `Validate` and `HandleSubmit` model only the component's own checks, so they accept 8.555 and pass it on. The education select is also `required`, but every option has a non-empty value, so it never blocks.
- CareerManagement.CareerManagement.HandleSubmit: does not model the browser's own constraint validation of the career form. The Career Name input is `required` (line 137 of `app/admin/components/CareerManagement.tsx`), so in the program an empty name blocks the submit and no `createCareer` or `updateCareer` call is made. The model sends the request for any form, an empty name included. A name of white space alone passes the browser and is sent in both. The minimum-education select always holds a non-empty value.
- QuestionManagement.QuestionManagement.HandleSubmit: does not model the browser's own constraint validation of the question form. In `app/admin/components/QuestionManagement.tsx`, the question text (line 127) and the options (line 152) are `required`, and the order index is `type="number" min="0"` (lines 160-161). In the program an empty question text, empty options or a negative order index blocks the submit, and no `createQuestion` or `updateQuestion` call is made. The model sends the request for any form: `SetOrderIndex("-1")` followed by a submit sends order index −1, as `OrderIndexInputReadsNumbers` shows. The question-type select is `required` but always holds one of its three values.
- AiLogic.RankCareers: takes `topN` as a natural number; a negative `slice` end is not modelled. The source only ever passes 3.
- StudentSubmissions.SortByRank: sorts a copy of the detail view's recommendations (`RankedRecommendations`). It does not capture that the source's in-place `sort` also reorders the same array inside the list state, through aliasing. The list view only reads the order through `find(r => r.rank === 1)`, which the stable sort leaves unaffected in every case, duplicate rank-1 rows included (`SortKeepsTopRecommendation`).
- The query error fields that `getStatistics` ignores are not modelled: a null result reads as an empty list, as the optional chaining does. Its catch-all `throw` is not modelled either.
- PersonalInfoStep: the branch `marks > 100 && marks <= 10` can never hold. `Validate` keeps it as an empty branch, and `ValidationErrors` shows that the range error alone decides values above 100.
