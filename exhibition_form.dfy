/**
 * The IPR exhibition request form: a six-step wizard driven by a declarative step table.
 * Every field value is a string; `initialState` maps every field id to the empty string;
 * a reducer applies `SET_FIELD`/`RESET_FORM`; `validateStep` checks only the fields of the
 * current step; Next advances only past a valid step; Submit posts the whole form and resets
 * it on success.
 */
module ExhibitionForm {
  import opened Outcomes
  import opened Text

  datatype InputType = TextInput | NumberInput

  /** One input of a step: its id (the key in the form data), label, required flag and input type. */
  datatype Field = Field(id: string, caption: string, required: bool, inputType: InputType)

  datatype Step = Step(title: string, fields: seq<Field>)

  /** The fields of the step titled "Hall for Exhibition". */
  const HallForExhibition: seq<Field> := [
    Field("hallDimension", "Hall Dimension", true, TextInput),
    Field("isEnclosedHall", "Is it an enclosed hall?", true, TextInput),
    Field("canBeDarkened", "Can the hall be darkened with curtains?", true, TextInput),
    Field("hasCooling", "Does the hall have A/C or fans?", false, TextInput),
    Field("isGroundFloor", "Is it on the ground floor?", true, TextInput),
    Field("hasStorageSpace", "Is there storage space for empty exhibit boxes?", false, TextInput),
    Field("powerOutlets", "No. of 230V (5/15A) power outlets in the hall", true, NumberInput),
    Field("numTables", "Tables for placing the exhibits", false, NumberInput),
    Field("vrSpace", "Space for VR", true, TextInput),
    Field("hasWifi", "WiFi Access", false, TextInput)
  ]

  /** The fields of the step titled "Hall for Lectures/Quiz/Tokotoy Competition". */
  const HallForLectures: seq<Field> := [
    Field("lectureHallArea", "Area of the hall", true, TextInput),
    Field("seatingCapacity", "Seating capacity", true, NumberInput),
    Field("hasAVFacilities", "Does the hall have A/V facilities?", false, TextInput),
    Field("distanceFromExhibition", "Distance of lecture hall from exhibition hall", false, TextInput)
  ]

  /** The fields of the step titled "Logistics and Accommodation". */
  const Logistics: seq<Field> := [
    Field("accommodationProvided", "Accommodation for IPR team", true, TextInput),
    Field("localTransportation", "Local transportation for IPR team", true, TextInput),
    Field("secureParkingSpace", "Secure parking space for IPR truck", true, TextInput),
    Field("manpowerForLoading", "Manpower for loading/unloading", true, TextInput)
  ]

  /** The fields of the step titled "Event Poster Details". */
  const EventPoster: seq<Field> := [
    Field("contactPersonName", "Name of the contact person", true, TextInput),
    Field("contactPersonMobile", "Mobile Number", true, TextInput),
    Field("contactPersonEmail", "E-mail", true, TextInput),
    Field("venueLocation", "Location of the venue", true, TextInput)
  ]

  /** The fields of the step titled "Teacher Training Program". */
  const TeacherTraining: seq<Field> := [
    Field("teacherInvitation", "Invitation to teachers", true, NumberInput),
    Field("teacherRegistration", "Registration", true, NumberInput),
    Field("providesWritingMaterials", "Writing materials provision", false, TextInput),
    Field("providesRefreshments", "Refreshments arrangement", false, TextInput)
  ]

  /** The fields of the step titled "Quiz Programme". */
  const QuizProgramme: seq<Field> := [
    Field("quizForSchoolStudents", "Quiz participation details", true, TextInput),
    Field("quizTeamSelection", "Team registration process", true, TextInput),
    Field("quizArrangements", "Quiz arrangements", true, TextInput),
    Field("quizRefreshments", "Refreshments for participants", false, TextInput)
  ]

  /** The step table of the form, in display order. */
  const Steps: seq<Step> := [
    Step("Hall for Exhibition", HallForExhibition),
    Step("Hall for Lectures/Quiz/Tokotoy Competition", HallForLectures),
    Step("Logistics and Accommodation", Logistics),
    Step("Event Poster Details", EventPoster),
    Step("Teacher Training Program", TeacherTraining),
    Step("Quiz Programme", QuizProgramme)
  ]

  /** The ids whose value must also denote a non-zero number, whatever their `required` flag. */
  const NumericIds: seq<string> :=
    ["powerOutlets", "numTables", "seatingCapacity", "teacherInvitation", "teacherRegistration"]

  /** Field id to current value. */
  type FormData = map<string, string>

  // ---------------------------------------------------------------------------
  // initialState
  // ---------------------------------------------------------------------------

  /** Some field of `fields` has id `k`. */
  ghost predicate HasId(fields: seq<Field>, k: string) {
    exists j :: 0 <= j < |fields| && fields[j].id == k
  }

  /** `k` is the id of some field of some step of `steps`. */
  ghost predicate IsFieldId(steps: seq<Step>, k: string) {
    exists i :: 0 <= i < |steps| && HasId(steps[i].fields, k)
  }

  lemma HasIdCons(fields: seq<Field>, k: string)
    requires fields != []
    ensures HasId(fields, k) <==> k == fields[0].id || HasId(fields[1..], k)
  {
    if HasId(fields, k) && k != fields[0].id {
      var j :| 0 <= j < |fields| && fields[j].id == k;
      assert fields[1..][j - 1].id == k;
    }
    if HasId(fields[1..], k) {
      var j :| 0 <= j < |fields[1..]| && fields[1..][j].id == k;
      assert fields[j + 1].id == k;
    }
  }

  lemma IsFieldIdCons(steps: seq<Step>, k: string)
    requires steps != []
    ensures IsFieldId(steps, k) <==> HasId(steps[0].fields, k) || IsFieldId(steps[1..], k)
  {
    if IsFieldId(steps, k) && !HasId(steps[0].fields, k) {
      var i :| 0 <= i < |steps| && HasId(steps[i].fields, k);
      assert steps[1..][i - 1] == steps[i];
    }
    if IsFieldId(steps[1..], k) {
      var i :| 0 <= i < |steps[1..]| && HasId(steps[1..][i].fields, k);
      assert steps[i + 1] == steps[1..][i];
    }
  }

  /** `fields.forEach(field => { acc[field.id] = '' })`. */
  function ClearFields(fields: seq<Field>, acc: FormData): FormData {
    if fields == [] then acc else ClearFields(fields[1..], acc[fields[0].id := ""])
  }

  /** `steps.reduce((acc, step) => { ...clear step.fields...; return acc }, acc)`. */
  function ClearSteps(steps: seq<Step>, acc: FormData): FormData {
    if steps == [] then acc else ClearSteps(steps[1..], ClearFields(steps[0].fields, acc))
  }

  /** The questionnaire has six steps, in display order, with these field counts. */
  lemma StepsShape()
    ensures |Steps| == 6
    ensures Steps[0].title == "Hall for Exhibition" && Steps[5].title == "Quiz Programme"
    ensures |Steps[0].fields| == 10
    ensures forall i :: 1 <= i < 6 ==> |Steps[i].fields| == 4
  {
  }

  /** The state the form starts in and returns to after `RESET_FORM`. */
  function InitialState(): FormData {
    ClearSteps(Steps, map[])
  }

  lemma {:induction false} ClearFieldsSpec(fields: seq<Field>, acc: FormData)
    ensures forall k :: k in ClearFields(fields, acc) <==> k in acc || HasId(fields, k)
    ensures forall k :: k in ClearFields(fields, acc) ==>
      ClearFields(fields, acc)[k] == (if HasId(fields, k) then "" else acc[k])
  {
    if fields != [] {
      ClearFieldsSpec(fields[1..], acc[fields[0].id := ""]);
      forall k {
        HasIdCons(fields, k);
      }
    }
  }

  lemma {:induction false} ClearStepsSpec(steps: seq<Step>, acc: FormData)
    ensures forall k :: k in ClearSteps(steps, acc) <==> k in acc || IsFieldId(steps, k)
    ensures forall k :: k in ClearSteps(steps, acc) ==>
      ClearSteps(steps, acc)[k] == (if IsFieldId(steps, k) then "" else acc[k])
  {
    if steps != [] {
      ClearFieldsSpec(steps[0].fields, acc);
      ClearStepsSpec(steps[1..], ClearFields(steps[0].fields, acc));
      forall k {
        IsFieldIdCons(steps, k);
      }
    }
  }

  /** `initialState` maps every field id of every step to the empty string, and nothing else. */
  lemma InitialStateShape()
    ensures forall k :: k in InitialState() <==> IsFieldId(Steps, k)
    ensures forall k :: k in InitialState() ==> InitialState()[k] == ""
  {
    ClearStepsSpec(Steps, map[]);
  }

  // ---------------------------------------------------------------------------
  // formReducer
  // ---------------------------------------------------------------------------

  datatype Action = SetField(field: string, value: string) | ResetForm | Other(kind: string)

  /** `formReducer(state, action)`. */
  function FormReducer(state: FormData, action: Action): (r: FormData)
    ensures action.SetField? ==>
      r.Keys == state.Keys + {action.field} && r[action.field] == action.value
      && forall k :: k in state && k != action.field ==> r[k] == state[k]
    ensures action.ResetForm? ==> r == InitialState()
    ensures action.Other? ==> r == state
  {
    match action
    case SetField(field, value) => state[field := value]
    case ResetForm => InitialState()
    case Other(_) => state
  }

  /** Resetting forgets every earlier edit: the result does not depend on the prior state. */
  lemma ResetForgetsState(a: FormData, b: FormData, field: string, value: string)
    ensures FormReducer(FormReducer(a, SetField(field, value)), ResetForm) == FormReducer(b, ResetForm)
  {
  }

  // ---------------------------------------------------------------------------
  // validateStep
  // ---------------------------------------------------------------------------

  /** `formData[id]`, where a missing key reads as the empty string (both fail the same checks). */
  function ValueOf(form: FormData, id: string): string {
    if id in form then form[id] else ""
  }

  /** The message one field contributes to the error map, if any. */
  function FieldError(f: Field, form: FormData): (r: Option<string>)
    ensures f.required && IsBlank(ValueOf(form, f.id)) ==> r == Some(f.caption + " is required")
    ensures (!(f.required && IsBlank(ValueOf(form, f.id))) && f.id in NumericIds
             && !NumberIsTruthy(ValueOf(form, f.id))) ==> r == Some(f.caption + " must be a valid number")
    ensures r.None? <==> (!(f.required && IsBlank(ValueOf(form, f.id)))
                          && (f.id !in NumericIds || NumberIsTruthy(ValueOf(form, f.id))))
  {
    var v := ValueOf(form, f.id);
    if f.required && IsBlank(v) then Some(f.caption + " is required")
    else if f.id in NumericIds && !NumberIsTruthy(v) then Some(f.caption + " must be a valid number")
    else None
  }

  /** `check` as `validateStep` applies it: one field's message on the current form data. */
  function Checker(form: FormData): Field -> Option<string> {
    f => FieldError(f, form)
  }

  /**
   * The error map after `forEach` has visited `fields` in order, recording under its id the
   * message `check` gives a field, if any.
   */
  function CollectErrors(fields: seq<Field>, check: Field -> Option<string>): map<string, string>
  {
    if fields == [] then map[]
    else
      var before := CollectErrors(fields[..|fields| - 1], check);
      var last := fields[|fields| - 1];
      match check(last)
      case Some(m) => before[last.id := m]
      case None => before
  }

  /** The error map `validateStep` builds over the fields of a step. */
  function StepErrors(fields: seq<Field>, form: FormData): map<string, string>
  {
    CollectErrors(fields, Checker(form))
  }

  /** Visiting one more field adds that field's message, if it has one. */
  lemma StepErrorsStep(fields: seq<Field>, check: Field -> Option<string>, i: nat)
    requires i < |fields|
    ensures CollectErrors(fields[..i + 1], check) ==
      match check(fields[i])
      case Some(m) => CollectErrors(fields[..i], check)[fields[i].id := m]
      case None => CollectErrors(fields[..i], check)
  {
    assert fields[..i + 1][..i] == fields[..i];
  }

  /** No two fields of a step share an id. */
  predicate DistinctIds(fields: seq<Field>) {
    forall a, b :: 0 <= a < b < |fields| ==> fields[a].id != fields[b].id
  }

  /** Validation is step-scoped: every key of the error map is the id of a field being validated. */
  lemma {:induction false} ErrorKeysAreStepFields(fields: seq<Field>, check: Field -> Option<string>)
    ensures forall k :: k in CollectErrors(fields, check) ==> HasId(fields, k)
  {
    if fields != [] {
      var n := |fields| - 1;
      ErrorKeysAreStepFields(fields[..n], check);
      forall k | k in CollectErrors(fields, check)
        ensures HasId(fields, k)
      {
        if k == fields[n].id {
        } else {
          assert k in CollectErrors(fields[..n], check);
          var j :| 0 <= j < |fields[..n]| && fields[..n][j].id == k;
          assert fields[j].id == k;
        }
      }
    }
  }

  /** With distinct ids, a field has an entry exactly when it fails its check, holding that check's message. */
  lemma {:induction false} ErrorOfField(fields: seq<Field>, check: Field -> Option<string>, j: nat)
    requires DistinctIds(fields)
    requires j < |fields|
    ensures fields[j].id in CollectErrors(fields, check) <==> check(fields[j]).Some?
    ensures fields[j].id in CollectErrors(fields, check) ==>
      CollectErrors(fields, check)[fields[j].id] == check(fields[j]).value
  {
    var n := |fields| - 1;
    var init := fields[..n];
    var before := CollectErrors(init, check);
    var last := fields[n];
    assert fields[..n + 1] == fields;
    StepErrorsStep(fields, check, n);
    assert CollectErrors(fields, check) == (if check(last).Some? then before[last.id := check(last).value] else before);
    if j < n {
      assert DistinctIds(init);
      ErrorOfField(init, check, j);
      assert init[j] == fields[j];
      assert last.id != fields[j].id;
    } else {
      ErrorKeysAreStepFields(init, check);
      assert forall i :: 0 <= i < |init| ==> init[i].id != last.id;
      assert !HasId(init, last.id);
      assert last.id !in before;
    }
  }

  /** An empty or whitespace-only required field gets exactly "<label> is required", before any number check. */
  lemma RequiredBlankMessage(fields: seq<Field>, form: FormData, j: nat)
    requires DistinctIds(fields) && j < |fields|
    requires fields[j].required && IsBlank(ValueOf(form, fields[j].id))
    ensures fields[j].id in StepErrors(fields, form)
    ensures StepErrors(fields, form)[fields[j].id] == fields[j].caption + " is required"
  {
    ErrorOfField(fields, Checker(form), j);
  }

  /** A numeric-set field that passes the required check but is not a non-zero number gets the number message. */
  lemma NumericMessage(fields: seq<Field>, form: FormData, j: nat)
    requires DistinctIds(fields) && j < |fields|
    requires !(fields[j].required && IsBlank(ValueOf(form, fields[j].id)))
    requires fields[j].id in NumericIds && !NumberIsTruthy(ValueOf(form, fields[j].id))
    ensures fields[j].id in StepErrors(fields, form)
    ensures StepErrors(fields, form)[fields[j].id] == fields[j].caption + " must be a valid number"
  {
    ErrorOfField(fields, Checker(form), j);
  }

  /** Every step of the table gives its fields distinct ids. */
  lemma StepsHaveDistinctIds()
    ensures forall i :: 0 <= i < |Steps| ==> DistinctIds(Steps[i].fields)
  {
    HallForExhibitionDistinct();
    HallForLecturesDistinct();
    LogisticsDistinct();
    EventPosterDistinct();
    TeacherTrainingDistinct();
    QuizProgrammeDistinct();
  }

  lemma HallForExhibitionDistinct()
    ensures DistinctIds(HallForExhibition)
  {
    HallForExhibitionDistinctBelow(5);
    HallForExhibitionDistinctBelow(10);
  }

  lemma HallForExhibitionDistinctBelow(n: nat)
    requires n == 5 || n == 10
    ensures forall a, b :: 0 <= a < b < |HallForExhibition| && n - 5 <= b < n ==> HallForExhibition[a].id != HallForExhibition[b].id
  {
  }

  lemma HallForLecturesDistinct()
    ensures DistinctIds(HallForLectures)
  {
  }

  lemma LogisticsDistinct()
    ensures DistinctIds(Logistics)
  {
  }

  lemma EventPosterDistinct()
    ensures DistinctIds(EventPoster)
  {
  }

  lemma TeacherTrainingDistinct()
    ensures DistinctIds(TeacherTraining)
  {
  }

  lemma QuizProgrammeDistinct()
    ensures DistinctIds(QuizProgramme)
  {
  }

  /** The eighth field of the first step is the optional, number-checked `numTables`. */
  lemma NumTablesField()
    ensures Steps[0].fields == HallForExhibition && |HallForExhibition| == 10
    ensures HallForExhibition[7] == Field("numTables", "Tables for placing the exhibits", false, NumberInput)
    ensures "numTables" in NumericIds
  {
    assert NumericIds[1] == "numTables";
  }

  /** An empty optional field whose id is in the numeric set fails the number check. */
  lemma EmptyNumericFieldFails(f: Field, form: FormData)
    requires !f.required && f.id in NumericIds && ValueOf(form, f.id) == ""
    ensures FieldError(f, form) == Some(f.caption + " must be a valid number")
  {
    assert IsBlank("") by {
      assert Trim("") == "";
    }
    BlankIsNotTruthy("");
  }

  /** The `numTables` message joined from its label, kept apart so the lemma below stays cheap. */
  lemma NumTablesMessage()
    ensures "Tables for placing the exhibits" + " must be a valid number"
         == "Tables for placing the exhibits must be a valid number"
  {
  }

  /**
   * The optional `numTables` field of the first step is still number-checked: left empty,
   * it blocks Next with "Tables for placing the exhibits must be a valid number".
   */
  lemma EmptyNumTablesBlocksFirstStep(form: FormData)
    requires ValueOf(form, "numTables") == ""
    ensures "numTables" in StepErrors(Steps[0].fields, form)
    ensures StepErrors(Steps[0].fields, form)["numTables"] == "Tables for placing the exhibits must be a valid number"
  {
    NumTablesField();
    EmptyNumericFieldFails(HallForExhibition[7], form);
    NumTablesMessage();
    HallForExhibitionDistinct();
    ErrorOfField(HallForExhibition, Checker(form), 7);
  }

  /**
   * The loop of `validateStep()`: visits the fields in order, recording the message `check`
   * gives each failing field; the result is valid exactly when nothing was recorded.
   */
  method CheckFields(fields: seq<Field>, check: Field -> Option<string>) returns (newErrors: map<string, string>, isValid: bool)
    ensures newErrors == CollectErrors(fields, check)
    ensures isValid <==> newErrors == map[]
  {
    newErrors := map[];
    isValid := true;
    var i := 0;
    while i < |fields|
      invariant 0 <= i <= |fields|
      invariant newErrors == CollectErrors(fields[..i], check)
      invariant isValid <==> newErrors == map[]
    {
      var field := fields[i];
      StepErrorsStep(fields, check, i);
      match check(field) {
        case Some(message) =>
          newErrors := newErrors[field.id := message];
          assert field.id in newErrors;
          isValid := false;
        case None =>
      }
      i := i + 1;
    }
    assert fields[..i] == fields;
  }

  // ---------------------------------------------------------------------------
  // The wizard
  // ---------------------------------------------------------------------------

  /** The component's state: the form data, the step cursor, the error map and the in-flight flag. */
  class Wizard {
    var formData: FormData
    var currentStep: int
    var errors: map<string, string>
    var isSubmitting: bool

    ghost predicate Valid()
      reads this
    {
      0 <= currentStep < |Steps|
    }

    constructor ()
      ensures Valid()
      ensures formData == InitialState() && currentStep == 0 && errors == map[] && !isSubmitting
    {
      formData := InitialState();
      currentStep := 0;
      errors := map[];
      isSubmitting := false;
    }

    /** `dispatch(action)`: the reducer replaces the form data. */
    method Dispatch(action: Action)
      modifies this`formData
      ensures formData == FormReducer(old(formData), action)
    {
      formData := FormReducer(formData, action);
    }

    /** `handleInputChange(id, value)`: dispatches `SET_FIELD`. */
    method HandleInputChange(id: string, value: string)
      modifies this`formData
      ensures formData == old(formData)[id := value]
    {
      Dispatch(SetField(id, value));
    }

    /** `validateStep()`: the current step's fields are checked and the error map replaced. */
    method ValidateStep() returns (isValid: bool)
      requires Valid()
      modifies this`errors
      ensures errors == StepErrors(Steps[currentStep].fields, formData)
      ensures isValid <==> errors == map[]
    {
      var newErrors;
      newErrors, isValid := CheckFields(Steps[currentStep].fields, Checker(formData));
      errors := newErrors;
    }

    /** `handleNextStep()`: offered on every step but the last; advances by one only past a valid step. */
    method HandleNextStep()
      requires Valid() && currentStep < |Steps| - 1
      modifies this`errors, this`currentStep
      ensures Valid()
      ensures errors == StepErrors(Steps[old(currentStep)].fields, formData)
      ensures currentStep == if errors == map[] then old(currentStep) + 1 else old(currentStep)
    {
      var ok := ValidateStep();
      if ok {
        currentStep := currentStep + 1;
      }
    }

    /** `handlePreviousStep()`: offered only after the first step; goes back one step without validating. */
    method HandlePreviousStep()
      requires Valid() && currentStep > 0
      modifies this`currentStep
      ensures Valid() && currentStep == old(currentStep) - 1
    {
      currentStep := currentStep - 1;
    }

    /**
     * `handleSubmit()`: validates the current step; when it is valid, posts the whole form
     * data (`posted`) and, if the server accepts it, resets the form and returns to the first
     * step. A rejected post leaves the data and the step as they were. `isSubmitting` is
     * cleared once the request has settled.
     */
    method HandleSubmit(serverAccepts: bool) returns (posted: Option<FormData>)
      requires Valid()
      modifies this
      ensures Valid()
      ensures errors == StepErrors(Steps[old(currentStep)].fields, old(formData))
      ensures posted == if errors == map[] then Some(old(formData)) else None
      ensures posted.Some? && serverAccepts ==> formData == InitialState() && currentStep == 0
      ensures !(posted.Some? && serverAccepts) ==> formData == old(formData) && currentStep == old(currentStep)
      ensures isSubmitting == if posted.Some? then false else old(isSubmitting)
    {
      var ok := ValidateStep();
      if !ok {
        return None;
      }
      isSubmitting := true;
      posted := Some(formData);
      if serverAccepts {
        Dispatch(ResetForm);
        currentStep := 0;
      }
      isSubmitting := false;
    }
  }
}
