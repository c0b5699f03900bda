/**
 * `app/results/components/CareerRoadmap.tsx`: the free-text roadmap of a career
 * shown as numbered steps, one per non-blank line, with any leading "N." that
 * the author typed removed (the view numbers the steps itself).
 */
module CareerRoadmap {
  import opened Wrappers
  import Seqs
  import Text

  /** The line starts with `/^\d+\./`. */
  predicate HasStepNumber(line: string) {
    var d := Text.LeadingDigits(line);
    0 < d < |line| && line[d] == '.'
  }

  // `line.replace(/^\d+\.\s*/, '')`: drop a leading number, its dot and the white space after it.
  function StripStepNumber(line: string): (r: string)
    ensures !HasStepNumber(line) ==> r == line
    ensures HasStepNumber(line) ==>
              |r| < |line| && r == line[|line| - |r|..] && (r == [] || !Text.IsWhiteSpace(r[0]))
    ensures HasStepNumber(line) ==>
              var d := Text.LeadingDigits(line);
              d < |line| - |r| && line[d] == '.'
              && forall i :: d < i < |line| - |r| ==> Text.IsWhiteSpace(line[i])
  {
    if HasStepNumber(line) then Text.TrimStart(line[Text.LeadingDigits(line) + 1..]) else line
  }

  // `line.replace(/^\d+\.\s*/, '').trim()`: the text of one step.
  function StepText(line: string): (text: string)
    ensures text == Text.Trim(StripStepNumber(line))
    ensures Text.Trimmed(text)
    ensures forall c :: c in text ==> c in line
  {
    var stripped := StripStepNumber(line);
    assert forall c :: c in stripped ==> c in line;
    Text.Trim(stripped)
  }

  /** `line => line.trim()` used as a filter: the line is not blank. */
  function IsStepLine(line: string): bool {
    Text.Trim(line) != ""
  }

  /**
   * The steps of a roadmap, or None when there is no roadmap (null or "", where
   * the component renders nothing).
   */
  function RoadmapSteps(roadmap: Option<string>): (steps: Option<seq<string>>)
    ensures steps.None? <==> roadmap.None? || roadmap.value == ""
    ensures steps.Some? ==>
              |steps.value| == |Seqs.Filter(Text.Split(roadmap.value, '\n'), IsStepLine)|
    ensures steps.Some? ==> forall i :: 0 <= i < |steps.value| ==> Text.Trimmed(steps.value[i])
    ensures steps.Some? ==>
              var lines := Seqs.Filter(Text.Split(roadmap.value, '\n'), IsStepLine);
              forall i :: 0 <= i < |steps.value| ==> steps.value[i] == StepText(lines[i])
  {
    if roadmap.None? || roadmap.value == "" then None
    else
      var lines := Seqs.Filter(Text.Split(roadmap.value, '\n'), IsStepLine);
      Some(seq(|lines|, i requires 0 <= i < |lines| => StepText(lines[i])))
  }

  /** The badge of the step at `index`: steps are numbered from 1. */
  function StepBadge(index: nat): (badge: nat)
    ensures badge >= 1
    ensures badge - 1 == index
  {
    index + 1
  }

  /**
   * A line "N." followed by any white space (none, spaces, tabs) and a trimmed
   * text shows as that text: "1.foo", "1.\tfoo" and "1. foo" all show "foo".
   */
  lemma NumberedLineAnySpacing(digits: string, pad: string, text: string)
    requires Text.IsNumber(digits)
    requires forall k :: 0 <= k < |pad| ==> Text.IsWhiteSpace(pad[k])
    requires Text.Trimmed(text)
    ensures StepText(digits + "." + pad + text) == text
  {
    var line := digits + "." + pad + text;
    assert line == digits + (['.'] + (pad + text));
    StripAfterNumber(digits, pad + text);
    Text.TrimStartSkipsWhiteSpace(pad, text);
    Text.TrimStartOfTrimmed(text);
  }

  /** After a number and its dot, what is left is the rest without its leading white space. */
  lemma StripAfterNumber(digits: string, after: string)
    requires Text.IsNumber(digits)
    ensures StripStepNumber(digits + (['.'] + after)) == Text.TrimStart(after)
  {
    var line := digits + (['.'] + after);
    Text.LeadingDigitsOf(digits, ['.'] + after);
    var d := Text.LeadingDigits(line);
    assert line[d] == '.' && line[d + 1..] == after;
    assert HasStepNumber(line);
  }

  /** A line "N. text" (any digits, one space) shows as `text` when `text` is already trimmed. */
  lemma NumberedLine(digits: string, text: string)
    requires Text.IsNumber(digits)
    requires Text.Trimmed(text)
    ensures StepText(digits + ". " + text) == text
  {
    assert digits + ". " + text == digits + "." + " " + text;
    NumberedLineAnySpacing(digits, " ", text);
  }

  /** A line that is only a number and its dot is an empty step. */
  lemma BareNumberIsEmptyStep()
    ensures StepText("3.") == ""
  {
    assert "3." == "3" + "." + "" + "";
    NumberedLineAnySpacing("3", "", "");
  }

  /** The pattern is anchored: a line indented before its number keeps the number, only trimmed. */
  lemma IndentedNumberKept(line: string)
    requires line != [] && Text.IsWhiteSpace(line[0])
    ensures !HasStepNumber(line)
    ensures StepText(line) == Text.Trim(line)
  {
    assert !Text.IsDigit(line[0]);
  }

  /** A numbered line is a step line without a line break. */
  lemma NumberedLineIsStep(digits: string, text: string)
    requires Text.IsNumber(digits)
    requires '\n' !in text
    ensures '\n' !in digits + ". " + text
    ensures IsStepLine(digits + ". " + text)
  {
    var line := digits + ". " + text;
    assert line[0] == digits[0];
  }

  /** The numbered lines "N. text" of a list of step texts. */
  function NumberedLines(numbers: seq<string>, texts: seq<string>): (lines: seq<string>)
    requires |numbers| == |texts|
    ensures |lines| == |texts|
    ensures forall i :: 0 <= i < |lines| ==> lines[i] == numbers[i] + ". " + texts[i]
  {
    seq(|texts|, i requires 0 <= i < |texts| => numbers[i] + ". " + texts[i])
  }

  /** The step texts of numbered lines are the texts. */
  lemma StepTextsOfNumberedLines(numbers: seq<string>, texts: seq<string>)
    requires |numbers| == |texts|
    requires forall i :: 0 <= i < |numbers| ==> Text.IsNumber(numbers[i])
    requires forall i :: 0 <= i < |texts| ==> Text.Trimmed(texts[i])
    ensures var lines := NumberedLines(numbers, texts);
            seq(|lines|, i requires 0 <= i < |lines| => StepText(lines[i])) == texts
  {
    var lines := NumberedLines(numbers, texts);
    forall i | 0 <= i < |lines| ensures StepText(lines[i]) == texts[i] {
      NumberedLine(numbers[i], texts[i]);
    }
  }

  /**
   * Round trip of the roadmap text: lines "N. text" joined by newlines show as
   * exactly those texts, in order, numbered 1, 2, 3, ...
   */
  lemma RoadmapRoundTrip(numbers: seq<string>, texts: seq<string>)
    requires |texts| >= 1 && |numbers| == |texts|
    requires forall i :: 0 <= i < |numbers| ==> Text.IsNumber(numbers[i])
    requires forall i :: 0 <= i < |texts| ==> Text.Trimmed(texts[i]) && '\n' !in texts[i]
    ensures RoadmapSteps(Some(Text.Join(NumberedLines(numbers, texts), "\n"))) == Some(texts)
  {
    var lines := NumberedLines(numbers, texts);
    forall i | 0 <= i < |lines| ensures '\n' !in lines[i] && IsStepLine(lines[i]) {
      NumberedLineIsStep(numbers[i], texts[i]);
    }
    var joined := Text.Join(lines, "\n");
    Text.SplitJoin(lines, '\n');
    Seqs.FilterKeepsAll(lines, IsStepLine);
    assert Seqs.Filter(Text.Split(joined, '\n'), IsStepLine) == lines;
    assert joined != "" by {
      assert lines[0] != [];
      if |lines| > 1 {
        assert joined == lines[0] + "\n" + Text.Join(lines[1..], "\n");
      }
    }
    StepTextsOfNumberedLines(numbers, texts);
  }
}
