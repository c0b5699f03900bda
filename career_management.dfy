/**
 * `app/admin/components/CareerManagement.tsx`: the admin screen that lists the
 * career catalogue and creates, edits and deletes careers through a form whose
 * list fields are comma-separated text.
 *
 * The server actions are outside the model: each handler receives what the
 * awaited call produced (whether the save or delete succeeded, the list a reload
 * fetched, None when the fetch threw) and returns the request it issued and the
 * alert it raised, if any.
 */
module CareerManagement {
  import opened Wrappers
  import opened Types
  import Text

  /** The form state: every field is the text of an input. */
  datatype CareerForm = CareerForm(
    name: string,
    description: string,
    requiredInterests: string,
    requiredSkills: string,
    requiredStrengths: string,
    minimumEducation: string,
    roadmap: string,
    learningResources: string)

  /** The record sent to `createCareer` / `updateCareer`. */
  datatype CareerData = CareerData(
    name: string,
    description: string,
    requiredInterests: seq<string>,
    requiredSkills: seq<string>,
    requiredStrengths: seq<string>,
    minimumEducation: string,
    roadmap: string,
    learningResources: string)

  /** The server action a submit issues. */
  datatype SaveRequest =
    | CreateCareer(data: CareerData)
    | UpdateCareer(id: string, data: CareerData)

  const DefaultEducation := "Undergraduate"
  const SaveFailed := "Failed to save career. Please try again."
  const DeleteFailed := "Failed to delete career. Please try again."

  /** The empty form: every field blank except the education, which starts at Undergraduate. */
  function EmptyForm(): (form: CareerForm)
    ensures form.minimumEducation == DefaultEducation
    ensures form.name == form.description == form.roadmap == form.learningResources == ""
    ensures form.requiredInterests == form.requiredSkills == form.requiredStrengths == ""
  {
    CareerForm("", "", "", "", "", DefaultEducation, "", "")
  }

  /** The record a submit sends: the three lists parsed, every other field copied. */
  function CareerDataOf(form: CareerForm): (data: CareerData)
    ensures data.name == form.name && data.description == form.description
    ensures data.minimumEducation == form.minimumEducation
    ensures data.roadmap == form.roadmap && data.learningResources == form.learningResources
    ensures data.requiredInterests == Text.ParseCommaList(form.requiredInterests)
    ensures data.requiredSkills == Text.ParseCommaList(form.requiredSkills)
    ensures data.requiredStrengths == Text.ParseCommaList(form.requiredStrengths)
    ensures forall i :: 0 <= i < |data.requiredInterests| ==> Text.IsLabel(data.requiredInterests[i])
    ensures forall i :: 0 <= i < |data.requiredSkills| ==> Text.IsLabel(data.requiredSkills[i])
    ensures forall i :: 0 <= i < |data.requiredStrengths| ==> Text.IsLabel(data.requiredStrengths[i])
  {
    CareerData(
      form.name,
      form.description,
      Text.ParseCommaList(form.requiredInterests),
      Text.ParseCommaList(form.requiredSkills),
      Text.ParseCommaList(form.requiredStrengths),
      form.minimumEducation,
      form.roadmap,
      form.learningResources)
  }

  /** The form an edit opens with: lists joined with ", ", null text as "", no minimum as Undergraduate. */
  function FormOf(career: CareerOption): (form: CareerForm)
    ensures form.name == career.name
    ensures form.description == if career.description.Some? then career.description.value else ""
    ensures form.minimumEducation ==
              if career.minimumEducation.Some? && career.minimumEducation.value != ""
              then career.minimumEducation.value else DefaultEducation
    ensures form.roadmap == if career.roadmap.Some? then career.roadmap.value else ""
    ensures form.learningResources ==
              if career.learningResources.Some? then career.learningResources.value else ""
    ensures form.requiredInterests == Text.JoinCommaList(career.requiredInterests)
    ensures form.requiredSkills == Text.JoinCommaList(career.requiredSkills)
    ensures form.requiredStrengths == Text.JoinCommaList(career.requiredStrengths)
  {
    CareerForm(
      career.name,
      career.description.GetOr(""),
      Text.JoinCommaList(career.requiredInterests),
      Text.JoinCommaList(career.requiredSkills),
      Text.JoinCommaList(career.requiredStrengths),
      if career.minimumEducation.Some? && career.minimumEducation.value != ""
      then career.minimumEducation.value else DefaultEducation,
      career.roadmap.GetOr(""),
      career.learningResources.GetOr(""))
  }

  /** Every entry of `labels` is a well-formed label. */
  predicate AllLabels(labels: seq<string>) {
    forall i :: 0 <= i < |labels| ==> Text.IsLabel(labels[i])
  }

  /**
   * Editing a career and saving it untouched sends its own lists back when their
   * entries are well-formed labels; the other fields come back with the form's
   * defaults in place of nulls.
   */
  lemma EditSubmitRoundTrip(career: CareerOption)
    requires AllLabels(career.requiredInterests)
    requires AllLabels(career.requiredSkills)
    requires AllLabels(career.requiredStrengths)
    ensures var data := CareerDataOf(FormOf(career));
            && data.name == career.name
            && data.requiredInterests == career.requiredInterests
            && data.requiredSkills == career.requiredSkills
            && data.requiredStrengths == career.requiredStrengths
            && data.description == career.description.GetOr("")
            && data.minimumEducation ==
                 (if career.minimumEducation.Some? && career.minimumEducation.value != ""
                  then career.minimumEducation.value else DefaultEducation)
  {
    Text.CommaListRoundTrip(career.requiredInterests);
    Text.CommaListRoundTrip(career.requiredSkills);
    Text.CommaListRoundTrip(career.requiredStrengths);
  }

  /**
   * A career with no minimum education that is edited and saved untouched gets
   * Undergraduate as its minimum.
   */
  lemma EditAddsDefaultMinimum(career: CareerOption)
    requires career.minimumEducation == None || career.minimumEducation == Some("")
    ensures CareerDataOf(FormOf(career)).minimumEducation == "Undergraduate"
  {
  }

  /** The catalogue row a saved record becomes. */
  function Saved(id: string, createdAt: string, data: CareerData): (career: CareerOption)
    ensures career.id == id && career.name == data.name
    ensures career.description == Some(data.description)
    ensures career.minimumEducation == Some(data.minimumEducation)
  {
    CareerOption(id, data.name, Some(data.description),
                 data.requiredInterests, data.requiredSkills, data.requiredStrengths,
                 Some(data.minimumEducation), Some(data.roadmap), Some(data.learningResources),
                 createdAt)
  }

  /** After one save, editing and saving again without changes sends the same record. */
  lemma SaveEditSaveStable(form: CareerForm, id: string, createdAt: string)
    requires form.minimumEducation != ""
    ensures var data := CareerDataOf(form);
            CareerDataOf(FormOf(Saved(id, createdAt, data))) == data
  {
    var data := CareerDataOf(form);
    var career := Saved(id, createdAt, data);
    EditSubmitRoundTrip(career);
    var again := CareerDataOf(FormOf(career));
    assert again.roadmap == data.roadmap && again.learningResources == data.learningResources;
  }

  /** The component's state. */
  class CareerManagement {
    var careers: seq<CareerOption>
    var loading: bool
    var showForm: bool
    var editingCareer: Option<CareerOption>
    var formData: CareerForm

    /** First render: nothing loaded yet, form closed and empty. */
    constructor()
      ensures careers == [] && loading && !showForm
      ensures editingCareer == None && formData == EmptyForm()
    {
      careers := [];
      loading := true;
      showForm := false;
      editingCareer := None;
      formData := EmptyForm();
    }

    /** `loadCareers`: keep the old list when the fetch throws; stop loading either way. */
    method LoadCareers(fetched: Option<seq<CareerOption>>)
      modifies this
      ensures careers == if fetched.Some? then fetched.value else old(careers)
      ensures !loading
      ensures showForm == old(showForm) && editingCareer == old(editingCareer) && formData == old(formData)
    {
      if fetched.Some? {
        careers := fetched.value;
      }
      loading := false;
    }

    /** `resetForm`: empty form, no career being edited, form hidden. */
    method ResetForm()
      modifies this
      ensures formData == EmptyForm() && editingCareer == None && !showForm
      ensures careers == old(careers) && loading == old(loading)
    {
      formData := EmptyForm();
      editingCareer := None;
      showForm := false;
    }

    /**
     * The header button, `setShowForm(!showForm)`: shows or hides the form and
     * nothing else. Hiding it this way keeps the form and the career being
     * edited, so showing it again reopens that edit.
     */
    method ToggleForm()
      modifies this
      ensures showForm == !old(showForm)
      ensures formData == old(formData) && editingCareer == old(editingCareer)
      ensures careers == old(careers) && loading == old(loading)
    {
      showForm := !showForm;
    }

    /**
     * `handleSubmit`: update the career being edited, or create a new one; on
     * success reload and reset the form, on failure alert and keep everything.
     */
    method HandleSubmit(saveSucceeded: bool, fetched: Option<seq<CareerOption>>)
      returns (request: SaveRequest, alert: Option<string>)
      modifies this
      ensures request == if old(editingCareer).Some?
                         then UpdateCareer(old(editingCareer).value.id, CareerDataOf(old(formData)))
                         else CreateCareer(CareerDataOf(old(formData)))
      ensures saveSucceeded ==>
                && alert == None
                && careers == (if fetched.Some? then fetched.value else old(careers))
                && !loading && formData == EmptyForm() && editingCareer == None && !showForm
      ensures !saveSucceeded ==>
                && alert == Some(SaveFailed)
                && careers == old(careers) && loading == old(loading) && showForm == old(showForm)
                && editingCareer == old(editingCareer) && formData == old(formData)
    {
      var careerData := CareerDataOf(formData);
      if editingCareer.Some? {
        request := UpdateCareer(editingCareer.value.id, careerData);
      } else {
        request := CreateCareer(careerData);
      }
      if saveSucceeded {
        LoadCareers(fetched);
        ResetForm();
        alert := None;
      } else {
        alert := Some(SaveFailed);
      }
    }

    /** `handleEdit`: open the form on the career's current values. */
    method HandleEdit(career: CareerOption)
      modifies this
      ensures editingCareer == Some(career) && formData == FormOf(career) && showForm
      ensures careers == old(careers) && loading == old(loading)
    {
      editingCareer := Some(career);
      formData := FormOf(career);
      showForm := true;
    }

    /**
     * `handleDelete`: nothing unless the admin confirms; then delete by id and
     * reload, or alert when the delete fails.
     */
    method HandleDelete(id: string, confirmed: bool, deleteSucceeded: bool, fetched: Option<seq<CareerOption>>)
      returns (deleted: Option<string>, alert: Option<string>)
      modifies this
      ensures deleted == if confirmed then Some(id) else None
      ensures alert == if confirmed && !deleteSucceeded then Some(DeleteFailed) else None
      ensures careers == if confirmed && deleteSucceeded && fetched.Some? then fetched.value else old(careers)
      ensures loading == (old(loading) && !(confirmed && deleteSucceeded))
      ensures showForm == old(showForm) && editingCareer == old(editingCareer) && formData == old(formData)
    {
      deleted, alert := None, None;
      if !confirmed {
        return;
      }
      deleted := Some(id);
      if deleteSucceeded {
        LoadCareers(fetched);
      } else {
        alert := Some(DeleteFailed);
      }
    }
  }
}
