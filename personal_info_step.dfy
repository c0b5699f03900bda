/**
 * `app/assessment/components/PersonalInfoStep.tsx`: the first step of the
 * assessment, which collects the name, education level and marks/CGPA and
 * refuses to move on while a field is invalid.
 */
module PersonalInfoStep {
  import opened Wrappers
  import opened Types
  import Text

  const NameKey := "name"
  const MarksKey := "marks_cgpa"
  const NameRequired := "Name is required"
  const InvalidMarks := "Please enter a valid marks/CGPA"
  const MarksOutOfRange := "Please enter a valid value (0-10 for CGPA or 0-100 for percentage)"

  /** The name is blank: `!formData.name.trim()`. */
  predicate BlankName(info: PersonalInfo) {
    Text.Trim(info.name) == ""
  }

  /**
   * The errors `validate` records for a form: the name when it is blank; the
   * marks when they are not positive, or when they exceed 100.
   */
  function ValidationErrors(info: PersonalInfo): (errors: map<string, string>)
    ensures NameKey in errors <==> BlankName(info)
    ensures NameKey in errors ==> errors[NameKey] == NameRequired
    ensures MarksKey in errors <==> info.marksCgpa <= 0.0 || info.marksCgpa > 100.0
    ensures info.marksCgpa <= 0.0 ==> MarksKey in errors && errors[MarksKey] == InvalidMarks
    ensures info.marksCgpa > 100.0 ==> MarksKey in errors && errors[MarksKey] == MarksOutOfRange
    ensures errors.Keys <= {NameKey, MarksKey}
  {
    var nameErrors: map<string, string> := if BlankName(info) then map[NameKey := NameRequired] else map[];
    if info.marksCgpa <= 0.0 then nameErrors[MarksKey := InvalidMarks]
    else if info.marksCgpa > 100.0 then nameErrors[MarksKey := MarksOutOfRange]
    else nameErrors
  }

  /** The form passes exactly when the name is not blank and the marks lie in (0, 100]. */
  lemma AcceptedIff(info: PersonalInfo)
    ensures ValidationErrors(info) == map[] <==> !BlankName(info) && 0.0 < info.marksCgpa <= 100.0
  {
    if ValidationErrors(info) == map[] {
      assert NameKey !in ValidationErrors(info);
    }
  }

  /** A CGPA and a percentage are both accepted: the form cannot tell them apart. */
  lemma CgpaAndPercentageAccepted(name: string, level: string)
    requires Text.Trim(name) != ""
    ensures ValidationErrors(PersonalInfo(name, level, 8.5)) == map[]
    ensures ValidationErrors(PersonalInfo(name, level, 85.0)) == map[]
  {
    AcceptedIff(PersonalInfo(name, level, 8.5));
    AcceptedIff(PersonalInfo(name, level, 85.0));
  }

  /** `parseFloat(value) || 0`: NaN (no number typed) and -0 both store 0. */
  function MarksInput(parsed: Option<real>): (marks: real)
    ensures parsed.None? ==> marks == 0.0
    ensures parsed.Some? ==> marks == parsed.value
  {
    parsed.GetOr(0.0)
  }

  /** The step's state. */
  class PersonalInfoStep {
    var formData: PersonalInfo
    var errors: map<string, string>

    constructor(initialData: PersonalInfo)
      ensures formData == initialData && errors == map[]
    {
      formData := initialData;
      errors := map[];
    }

    method SetName(name: string)
      modifies this
      ensures formData == old(formData).(name := name) && errors == old(errors)
    {
      formData := formData.(name := name);
    }

    method SetEducationLevel(level: string)
      modifies this
      ensures formData == old(formData).(educationLevel := level) && errors == old(errors)
    {
      formData := formData.(educationLevel := level);
    }

    /** The marks field's `onChange`, given what `parseFloat` made of the text. */
    method SetMarks(parsed: Option<real>)
      modifies this
      ensures formData == old(formData).(marksCgpa := MarksInput(parsed)) && errors == old(errors)
    {
      formData := formData.(marksCgpa := MarksInput(parsed));
    }

    /** `validate`: record the errors of the current form; true when there are none. */
    method Validate() returns (valid: bool)
      modifies this
      ensures errors == ValidationErrors(formData) && formData == old(formData)
      ensures valid <==> !BlankName(formData) && 0.0 < formData.marksCgpa <= 100.0
    {
      var newErrors: map<string, string> := map[];
      if Text.Trim(formData.name) == "" {
        newErrors := newErrors[NameKey := NameRequired];
      }
      ghost var nameErrors := newErrors;
      if formData.marksCgpa <= 0.0 {
        newErrors := newErrors[MarksKey := InvalidMarks];
      }
      if formData.marksCgpa > 100.0 && formData.marksCgpa <= 10.0 {
        // no marks can be both above 100 and at most 10
      } else if formData.marksCgpa > 100.0 {
        newErrors := newErrors[MarksKey := MarksOutOfRange];
      }
      assert newErrors == ValidationErrors(formData) by {
        if formData.marksCgpa <= 0.0 {
          assert newErrors == nameErrors[MarksKey := InvalidMarks];
        } else if formData.marksCgpa > 100.0 {
          assert newErrors == nameErrors[MarksKey := MarksOutOfRange];
        } else {
          assert newErrors == nameErrors;
        }
      }
      errors := newErrors;
      AcceptedIff(formData);
      valid := errors == map[];
    }

    /** `handleSubmit`: the data handed to the page, or None when validation fails. */
    method HandleSubmit() returns (next: Option<PersonalInfo>)
      modifies this
      ensures errors == ValidationErrors(formData) && formData == old(formData)
      ensures next.Some? <==> !BlankName(formData) && 0.0 < formData.marksCgpa <= 100.0
      ensures next.Some? ==> next.value == formData
    {
      var valid := Validate();
      if valid {
        next := Some(formData);
      } else {
        next := None;
      }
    }
  }
}
