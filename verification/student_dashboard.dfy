/**
 * The student screen: a menu, and two request forms (study material, answer
 * key) that share five fields. Submitting forwards the form to the
 * controller's request handler and clears it. Beside the form, the student's
 * own requests are listed.
 */
module StudentDashboard {
  import opened Types
  import opened Constants
  import opened Records

  datatype View = Menu | RequestFiles | RequestKey

  /** The five form fields; `None` and "" are the empty selections. */
  datatype Form = Form(
    subject: Option<Subject>,
    unit: string,
    material: Option<MaterialCategory>,
    attachedFile: Option<File>,
    description: string)

  const EmptyForm: Form := Form(None, "", None, None, "")

  /** The arguments `handleRequest` passes to the request handler. */
  datatype Submission = Submission(
    subject: Subject,
    unit: string,
    requestType: RequestType,
    materialCategory: Option<MaterialCategory>,
    attachedFile: Option<File>,
    description: Option<string>)

  /** The unit choices: only the study-material form omits "All Units". */
  function CurrentUnitList(view: View): (units: seq<string>)
    ensures view == RequestFiles ==> units == UnitsStandard
    ensures view != RequestFiles ==> units == UnitsWithAll
    ensures AllUnitsLabel in units <==> view != RequestFiles
  {
    if view == RequestFiles then UnitsStandard else UnitsWithAll
  }

  /**
   * What `handleRequest` submits, if anything: subject and unit must be
   * chosen; the study-material form also needs a category, any other view
   * a file.
   */
  function SubmissionFor(view: View, form: Form): (s: Option<Submission>)
    ensures s.Some? ==> form.subject.Some? && form.unit != ""
    ensures s.Some? ==> s.value.subject == form.subject.value && s.value.unit == form.unit
    ensures s.Some? ==> (s.value.requestType == StudyGuide <==> view == RequestFiles)
    ensures s.Some? && view == RequestFiles ==> form.material.Some? && s.value.materialCategory == form.material
    ensures s.Some? && view != RequestFiles ==> form.attachedFile.Some? && s.value.materialCategory.None?
    ensures s.Some? ==> s.value.attachedFile == form.attachedFile
    ensures s.Some? ==> (s.value.description.Some? <==> form.description != "")
    ensures s.Some? && form.description != "" ==> s.value.description == Some(form.description)
    ensures s.None? ==> form.subject.None? || form.unit == ""
                        || (view == RequestFiles && form.material.None?)
                        || (view != RequestFiles && form.attachedFile.None?)
  {
    if form.subject.Some? && form.unit != "" then
      var requestType := if view == RequestFiles then StudyGuide else AnswerKey;
      if requestType == StudyGuide && form.material.None? then None
      else if requestType == AnswerKey && form.attachedFile.None? then None
      else Some(Submission(
        form.subject.value,
        form.unit,
        requestType,
        if requestType == StudyGuide then form.material else None,
        form.attachedFile,
        NonEmpty(Some(form.description))))
    else None
  }

  /**
   * `isSubmitDisabled()`: disabled without a subject or a unit, on the files
   * form without a category, on the key form without a file, and enabled
   * otherwise.
   */
  predicate IsSubmitDisabled(view: View, form: Form): (disabled: bool)
    ensures form.subject.None? || form.unit == "" ==> disabled
    ensures view == RequestFiles && form.material.None? ==> disabled
    ensures view == RequestKey && form.attachedFile.None? ==> disabled
    ensures disabled ==> || form.subject.None? || form.unit == ""
                         || (view == RequestFiles && form.material.None?)
                         || (view == RequestKey && form.attachedFile.None?)
  {
    if form.subject.None? || form.unit == "" then true
    else if view == RequestFiles && form.material.None? then true
    else if view == RequestKey && form.attachedFile.None? then true
    else false
  }

  /** On both forms the submit button is enabled exactly when submitting would send something. */
  lemma SubmitEnabledIffSubmitted(view: View, form: Form)
    requires view != Menu
    ensures !IsSubmitDisabled(view, form) <==> SubmissionFor(view, form).Some?
  {
  }

  /** `requests.filter(r => r.userId === user.id)`: the student's own feed, in stored order. */
  function MyRequests(requests: seq<RequestItem>, user: User): (mine: seq<RequestItem>)
    ensures forall r :: r in mine <==> r in requests && r.userId == user.id
  {
    RequestsOf(requests, user.id)
  }

  class Dashboard {
    var view: View
    var form: Form

    constructor ()
      ensures view == Menu && form == EmptyForm
    {
      view := Menu;
      form := EmptyForm;
    }

    /** The two menu buttons. */
    method OpenView(v: View)
      modifies this
      ensures view == v && form == old(form)
    {
      view := v;
    }

    /** The subject selector: choosing a subject clears the unit. */
    method ChangeSubject(subject: Option<Subject>)
      modifies this
      ensures form == old(form).(subject := subject, unit := "")
      ensures view == old(view)
    {
      form := form.(subject := subject);
      form := form.(unit := "");
    }

    method SelectUnit(unit: string)
      modifies this
      ensures form == old(form).(unit := unit) && view == old(view)
    {
      form := form.(unit := unit);
    }

    method SelectMaterial(material: Option<MaterialCategory>)
      modifies this
      ensures form == old(form).(material := material) && view == old(view)
    {
      form := form.(material := material);
    }

    method AttachFile(file: Option<File>)
      modifies this
      ensures form == old(form).(attachedFile := file) && view == old(view)
    {
      form := form.(attachedFile := file);
    }

    method EditDescription(description: string)
      modifies this
      ensures form == old(form).(description := description) && view == old(view)
    {
      form := form.(description := description);
    }

    /**
     * `handleRequest`: returns what is passed to the request handler, if
     * anything; a submission clears all five fields and keeps the view.
     */
    method HandleRequest() returns (submitted: Option<Submission>)
      modifies this
      ensures submitted == SubmissionFor(old(view), old(form))
      ensures submitted.Some? ==> form == EmptyForm
      ensures submitted.None? ==> form == old(form)
      ensures view == old(view)
    {
      submitted := None;
      if form.subject.Some? && form.unit != "" {
        var requestType := if view == RequestFiles then StudyGuide else AnswerKey;
        if requestType == StudyGuide && form.material.None? {
          return;
        }
        if requestType == AnswerKey && form.attachedFile.None? {
          return;
        }
        submitted := Some(Submission(
          form.subject.value,
          form.unit,
          requestType,
          if requestType == StudyGuide then form.material else None,
          form.attachedFile,
          NonEmpty(Some(form.description))));
        form := form.(unit := "");
        form := form.(subject := None);
        form := form.(material := None);
        form := form.(attachedFile := None);
        form := form.(description := "");
      }
    }

    /** `handleBack`: back to the menu with all fields cleared. */
    method HandleBack()
      modifies this
      ensures view == Menu && form == EmptyForm
    {
      view := Menu;
      form := EmptyForm;
    }
  }
}
