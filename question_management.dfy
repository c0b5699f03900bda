/**
 * `app/admin/components/QuestionManagement.tsx`: the admin screen for the
 * assessment questions, grouped by type, with a form whose options field is
 * comma-separated text and whose order index is read with `parseInt`.
 *
 * As for the career screen, the server actions are outside the model: handlers
 * receive what the awaited call produced and return the request and the alert.
 */
module QuestionManagement {
  import opened Wrappers
  import opened Types
  import Seqs
  import Text

  datatype QuestionForm = QuestionForm(
    questionText: string,
    questionType: QuestionType,
    options: string,
    orderIndex: int)

  /** The record sent to `createQuestion` / `updateQuestion`. */
  datatype QuestionData = QuestionData(
    questionText: string,
    questionType: QuestionType,
    options: seq<string>,
    orderIndex: int)

  datatype SaveRequest =
    | CreateQuestion(data: QuestionData)
    | UpdateQuestion(id: string, data: QuestionData)

  /** The three lists the screen shows, one per question type. */
  datatype QuestionGroups = QuestionGroups(
    interests: seq<AssessmentQuestion>,
    skills: seq<AssessmentQuestion>,
    strengths: seq<AssessmentQuestion>)

  const SaveFailed := "Failed to save question. Please try again."
  const DeleteFailed := "Failed to delete question. Please try again."

  /** The empty form: an interests question at order 0. */
  function EmptyForm(): (form: QuestionForm)
    ensures form.questionText == "" && form.options == ""
    ensures form.questionType == InterestsQuestion && form.orderIndex == 0
  {
    QuestionForm("", InterestsQuestion, "", 0)
  }

  /** The record a submit sends: the options parsed, every other field copied. */
  function QuestionDataOf(form: QuestionForm): (data: QuestionData)
    ensures data.questionText == form.questionText && data.questionType == form.questionType
    ensures data.orderIndex == form.orderIndex
    ensures data.options == Text.ParseCommaList(form.options)
    ensures forall i :: 0 <= i < |data.options| ==> Text.IsLabel(data.options[i])
  {
    QuestionData(form.questionText, form.questionType, Text.ParseCommaList(form.options), form.orderIndex)
  }

  /** `order_index || 0`: a null index edits as 0. */
  function OrderIndexOrZero(orderIndex: Option<int>): (n: int)
    ensures orderIndex.Some? ==> n == orderIndex.value
    ensures orderIndex.None? ==> n == 0
  {
    orderIndex.GetOr(0)
  }

  /** The form an edit opens with. */
  function FormOf(question: AssessmentQuestion): (form: QuestionForm)
    ensures form.questionText == question.questionText && form.questionType == question.questionType
    ensures form.orderIndex == OrderIndexOrZero(question.orderIndex)
    ensures form.options == Text.JoinCommaList(question.options)
  {
    QuestionForm(question.questionText, question.questionType,
                 Text.JoinCommaList(question.options), OrderIndexOrZero(question.orderIndex))
  }

  /** Editing and saving a question untouched sends its own options back when they are labels. */
  lemma EditSubmitRoundTrip(question: AssessmentQuestion)
    requires forall i :: 0 <= i < |question.options| ==> Text.IsLabel(question.options[i])
    ensures var data := QuestionDataOf(FormOf(question));
            && data.options == question.options
            && data.questionText == question.questionText
            && data.questionType == question.questionType
            && data.orderIndex == question.orderIndex.GetOr(0)
  {
    Text.CommaListRoundTrip(question.options);
  }

  /** `parseInt(value) || 0`: what the order field keeps of the typed text. */
  function OrderIndexInput(text: string): (n: int)
    ensures Text.ParseInt(text).None? ==> n == 0
    ensures Text.ParseInt(text).Some? ==> n == Text.ParseInt(text).value
  {
    Text.ParseInt(text).GetOr(0)
  }

  /** Typing a number (with or without minus sign) into the order field stores that number. */
  lemma OrderIndexInputReadsNumbers(n: nat)
    ensures OrderIndexInput(Text.Decimal(n)) == n
    ensures OrderIndexInput("-" + Text.Decimal(n)) == -(n as int)
  {
    Text.ParseIntDecimal(n);
    Text.ParseIntNegativeDecimal(n);
  }

  /** The predicate `q => q.question_type === t`. */
  function OfType(t: QuestionType): AssessmentQuestion -> bool {
    (q: AssessmentQuestion) => q.questionType == t
  }

  /** `groupedQuestions`: the questions of each type, in list order. */
  function GroupQuestions(questions: seq<AssessmentQuestion>): (groups: QuestionGroups)
    ensures forall q :: q in groups.interests <==> q in questions && q.questionType == InterestsQuestion
    ensures forall q :: q in groups.skills <==> q in questions && q.questionType == SkillsQuestion
    ensures forall q :: q in groups.strengths <==> q in questions && q.questionType == StrengthsQuestion
    ensures Seqs.IsSubsequence(groups.interests, questions)
    ensures Seqs.IsSubsequence(groups.skills, questions)
    ensures Seqs.IsSubsequence(groups.strengths, questions)
  {
    Seqs.FilterIsSubsequence(questions, OfType(InterestsQuestion));
    Seqs.FilterIsSubsequence(questions, OfType(SkillsQuestion));
    Seqs.FilterIsSubsequence(questions, OfType(StrengthsQuestion));
    QuestionGroups(
      Seqs.Filter(questions, OfType(InterestsQuestion)),
      Seqs.Filter(questions, OfType(SkillsQuestion)),
      Seqs.Filter(questions, OfType(StrengthsQuestion)))
  }

  /** The three groups partition the questions: every question is in exactly one, once. */
  lemma GroupsPartition(questions: seq<AssessmentQuestion>)
    ensures var g := GroupQuestions(questions);
            multiset(g.interests) + multiset(g.skills) + multiset(g.strengths) == multiset(questions)
    ensures var g := GroupQuestions(questions);
            |g.interests| + |g.skills| + |g.strengths| == |questions|
  {
    var g := GroupQuestions(questions);
    Seqs.FilterPartition3(questions, OfType(InterestsQuestion), OfType(SkillsQuestion), OfType(StrengthsQuestion));
    assert |multiset(g.interests) + multiset(g.skills) + multiset(g.strengths)| ==
           |g.interests| + |g.skills| + |g.strengths|;
  }

  /** The component's state. */
  class QuestionManagement {
    var questions: seq<AssessmentQuestion>
    var loading: bool
    var showForm: bool
    var editingQuestion: Option<AssessmentQuestion>
    var formData: QuestionForm

    constructor()
      ensures questions == [] && loading && !showForm
      ensures editingQuestion == None && formData == EmptyForm()
    {
      questions := [];
      loading := true;
      showForm := false;
      editingQuestion := None;
      formData := EmptyForm();
    }

    /** The grouped lists of the current questions. */
    function Grouped(): (groups: QuestionGroups)
      reads this
      ensures |groups.interests| + |groups.skills| + |groups.strengths| == |questions|
    {
      GroupsPartition(questions);
      GroupQuestions(questions)
    }

    /** `loadQuestions`: keep the old list when the fetch throws; stop loading either way. */
    method LoadQuestions(fetched: Option<seq<AssessmentQuestion>>)
      modifies this
      ensures questions == if fetched.Some? then fetched.value else old(questions)
      ensures !loading
      ensures showForm == old(showForm) && editingQuestion == old(editingQuestion) && formData == old(formData)
    {
      if fetched.Some? {
        questions := fetched.value;
      }
      loading := false;
    }

    /** `resetForm`. */
    method ResetForm()
      modifies this
      ensures formData == EmptyForm() && editingQuestion == None && !showForm
      ensures questions == old(questions) && loading == old(loading)
    {
      formData := EmptyForm();
      editingQuestion := None;
      showForm := false;
    }

    /**
     * The header button, `setShowForm(!showForm)`: shows or hides the form and
     * nothing else. Hiding it this way keeps the form and the question being
     * edited, so showing it again reopens that edit.
     */
    method ToggleForm()
      modifies this
      ensures showForm == !old(showForm)
      ensures formData == old(formData) && editingQuestion == old(editingQuestion)
      ensures questions == old(questions) && loading == old(loading)
    {
      showForm := !showForm;
    }

    /** The order field's `onChange`. */
    method SetOrderIndex(text: string)
      modifies this
      ensures formData == old(formData).(orderIndex := OrderIndexInput(text))
      ensures questions == old(questions) && loading == old(loading) && showForm == old(showForm)
      ensures editingQuestion == old(editingQuestion)
    {
      formData := formData.(orderIndex := OrderIndexInput(text));
    }

    /** `handleSubmit`: update or create; on success reload and reset, on failure alert. */
    method HandleSubmit(saveSucceeded: bool, fetched: Option<seq<AssessmentQuestion>>)
      returns (request: SaveRequest, alert: Option<string>)
      modifies this
      ensures request == if old(editingQuestion).Some?
                         then UpdateQuestion(old(editingQuestion).value.id, QuestionDataOf(old(formData)))
                         else CreateQuestion(QuestionDataOf(old(formData)))
      ensures saveSucceeded ==>
                && alert == None
                && questions == (if fetched.Some? then fetched.value else old(questions))
                && !loading && formData == EmptyForm() && editingQuestion == None && !showForm
      ensures !saveSucceeded ==>
                && alert == Some(SaveFailed)
                && questions == old(questions) && loading == old(loading) && showForm == old(showForm)
                && editingQuestion == old(editingQuestion) && formData == old(formData)
    {
      var questionData := QuestionDataOf(formData);
      if editingQuestion.Some? {
        request := UpdateQuestion(editingQuestion.value.id, questionData);
      } else {
        request := CreateQuestion(questionData);
      }
      if saveSucceeded {
        LoadQuestions(fetched);
        ResetForm();
        alert := None;
      } else {
        alert := Some(SaveFailed);
      }
    }

    /** `handleEdit`. */
    method HandleEdit(question: AssessmentQuestion)
      modifies this
      ensures editingQuestion == Some(question) && formData == FormOf(question) && showForm
      ensures questions == old(questions) && loading == old(loading)
    {
      editingQuestion := Some(question);
      formData := FormOf(question);
      showForm := true;
    }

    /** `handleDelete`: only after confirmation; reload on success, alert on failure. */
    method HandleDelete(id: string, confirmed: bool, deleteSucceeded: bool,
                        fetched: Option<seq<AssessmentQuestion>>)
      returns (deleted: Option<string>, alert: Option<string>)
      modifies this
      ensures deleted == if confirmed then Some(id) else None
      ensures alert == if confirmed && !deleteSucceeded then Some(DeleteFailed) else None
      ensures questions ==
                if confirmed && deleteSucceeded && fetched.Some? then fetched.value else old(questions)
      ensures loading == (old(loading) && !(confirmed && deleteSucceeded))
      ensures showForm == old(showForm) && editingQuestion == old(editingQuestion) && formData == old(formData)
    {
      deleted, alert := None, None;
      if !confirmed {
        return;
      }
      deleted := Some(id);
      if deleteSucceeded {
        LoadQuestions(fetched);
      } else {
        alert := Some(DeleteFailed);
      }
    }
  }
}
