/** The pure helpers of `lib/utils.ts`. */
module Utils {
  import opened Types

  /**
   * The education ordering: High School < Undergraduate < Graduate, and every
   * other string ranks below all three (the lookup's `|| 0` fallback).
   */
  function EducationLevelToNumber(level: string): (n: nat)
    ensures n <= 3
    ensures n == 1 <==> level == "High School"
    ensures n == 2 <==> level == "Undergraduate"
    ensures n == 3 <==> level == "Graduate"
    ensures n == 0 <==> level !in {"High School", "Undergraduate", "Graduate"}
  {
    if level == "High School" then 1
    else if level == "Undergraduate" then 2
    else if level == "Graduate" then 3
    else 0
  }

  /** The three recognised levels are strictly ordered, and unknown strings rank lowest. */
  lemma EducationOrdering(other: string)
    requires other !in {"High School", "Undergraduate", "Graduate"}
    ensures EducationLevelToNumber(other) < EducationLevelToNumber("High School")
    ensures EducationLevelToNumber("High School") < EducationLevelToNumber("Undergraduate")
    ensures EducationLevelToNumber("Undergraduate") < EducationLevelToNumber("Graduate")
  {
  }

  const GreenBar := "bg-green-500"
  const YellowBar := "bg-yellow-500"
  const RedBar := "bg-red-500"

  /** Progress-bar colour: green from 75, yellow from 50, red below. */
  function GetProgressColor(percentage: real): (color: string)
    ensures color == GreenBar <==> percentage >= 75.0
    ensures color == YellowBar <==> 50.0 <= percentage < 75.0
    ensures color == RedBar <==> percentage < 50.0
  {
    if percentage >= 75.0 then GreenBar
    else if percentage >= 50.0 then YellowBar
    else RedBar
  }

  /**
   * `text.substring(0, maxLength) + '...'` when the text is longer than `maxLength`.
   * `substring` clamps a negative end to 0.
   */
  function TruncateText(text: string, maxLength: int): (r: string)
    ensures |text| <= maxLength ==> r == text
    ensures |text| > maxLength && maxLength >= 0 ==>
              |r| == maxLength + 3 && r == text[..maxLength] + "..."
    ensures |text| > maxLength && maxLength < 0 ==> r == "..."
  {
    if |text| <= maxLength then text
    else text[..if maxLength < 0 then 0 else maxLength] + "..."
  }

  /** Text and background classes of a confidence tier. */
  function GetConfidenceColor(confidence: Confidence): (classes: string)
    ensures classes != ""
  {
    match confidence
    case High => "text-green-600 bg-green-50"
    case Medium => "text-yellow-600 bg-yellow-50"
    case Low => "text-red-600 bg-red-50"
  }

  /** Badge classes of a confidence tier. */
  function GetConfidenceBadgeColor(confidence: Confidence): (classes: string)
    ensures classes != ""
  {
    match confidence
    case High => "bg-green-100 text-green-800 border-green-200"
    case Medium => "bg-yellow-100 text-yellow-800 border-yellow-200"
    case Low => "bg-red-100 text-red-800 border-red-200"
  }

  /** Both colour maps tell the three tiers apart. */
  lemma ConfidenceColorsDistinct(a: Confidence, b: Confidence)
    requires a != b
    ensures GetConfidenceColor(a) != GetConfidenceColor(b)
    ensures GetConfidenceBadgeColor(a) != GetConfidenceBadgeColor(b)
  {
  }
}
