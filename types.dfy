/** The records of `lib/types.ts` that the modelled code reads and writes. */
module Types {
  import opened Wrappers

  /** `'high' | 'medium' | 'low'`. */
  datatype Confidence = High | Medium | Low

  /** A catalogue entry; nullable columns are `Option`s. */
  datatype CareerOption = CareerOption(
    id: string,
    name: string,
    description: Option<string>,
    requiredInterests: seq<string>,
    requiredSkills: seq<string>,
    requiredStrengths: seq<string>,
    minimumEducation: Option<string>,
    roadmap: Option<string>,
    learningResources: Option<string>,
    createdAt: string)

  /** `'interests' | 'skills' | 'strengths'`. */
  datatype QuestionType = InterestsQuestion | SkillsQuestion | StrengthsQuestion

  datatype AssessmentQuestion = AssessmentQuestion(
    id: string,
    questionText: string,
    questionType: QuestionType,
    options: seq<string>,
    orderIndex: Option<int>,
    createdAt: string)

  /** The first form step; marks are a CGPA (0-10) or a percentage (0-100). */
  datatype PersonalInfo = PersonalInfo(name: string, educationLevel: string, marksCgpa: real)

  /** Everything the assessment wizard collects. */
  datatype AssessmentData = AssessmentData(
    personalInfo: PersonalInfo,
    interests: seq<string>,
    skills: seq<string>,
    strengths: seq<string>)

  /** One scored career; `rank` is 0 until ranking assigns 1, 2, 3. */
  datatype CareerScore = CareerScore(
    career: CareerOption,
    score: real,
    matchPercentage: real,
    confidenceScore: Confidence,
    skillGaps: seq<string>,
    rank: int)
}
