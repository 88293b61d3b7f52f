/**
 * The National Science Day registration page: a three-step flow (school details, the
 * accompanying teacher, then competitions). The step cursor moves only when the server
 * accepts a submission; competitions are registered once each, their details are saved
 * one at a time, and the final submission posts every saved competition in order,
 * stopping at the first failure.
 */
module ScienceDay {
  import opened Outcomes
  import opened Text
  import Lists

  // ---------------------------------------------------------------------------
  // Field keys of the first two steps
  // ---------------------------------------------------------------------------

  /** The form-data key of input `index` on step `step`: `step{step}_field{index}`. */
  function Key(step: nat, index: nat): (k: string)
    ensures |k| >= 12 && k[..4] == "step"
  {
    "step" + DecimalString(step) + "_field" + DecimalString(index)
  }

  /** `parseInt`'s digit scan stops exactly at the end of a run of digits followed by a non-digit. */
  lemma {:induction false} DigitPrefixOfDigits(x: string, rest: string)
    requires forall k :: 0 <= k < |x| ==> IsDigit(x[k])
    requires rest == [] || DigitValue(rest[0]) >= 10
    ensures DigitPrefix(x + rest, 10) == x
  {
    if x != [] {
      assert (x + rest)[1..] == x[1..] + rest;
      DigitPrefixOfDigits(x[1..], rest);
    } else {
      assert x + rest == rest;
    }
  }

  /** A run of digits followed by `_` splits uniquely: equal strings have equal digit runs. */
  lemma SplitAfterDigits(x: string, r1: string, y: string, r2: string)
    requires AllDigits(x) && AllDigits(y)
    requires r1 != [] && r1[0] == '_' && r2 != [] && r2[0] == '_'
    requires x + r1 == y + r2
    ensures x == y && r1 == r2
  {
    assert DigitValue('_') == 16;
    DigitPrefixOfDigits(x, r1);
    DigitPrefixOfDigits(y, r2);
    assert r1 == (x + r1)[|x|..];
    assert r2 == (y + r2)[|y|..];
  }

  /** What follows `step` in a key: the step's digits, then `_field` and the index's digits. */
  lemma KeyAfterPrefix(a: nat, b: nat)
    ensures |Key(a, b)| >= 4
    ensures Key(a, b)[4..] == DecimalString(a) + ("_field" + DecimalString(b))
  {
    var x, z := DecimalString(a), DecimalString(b);
    assert Key(a, b) == "step" + (x + ("_field" + z));
  }

  /** Different (step, index) pairs never share a key. */
  lemma KeyInjective(a: nat, b: nat, c: nat, d: nat)
    requires Key(a, b) == Key(c, d)
    ensures a == c && b == d
  {
    var r1, r2 := "_field" + DecimalString(b), "_field" + DecimalString(d);
    KeyAfterPrefix(a, b);
    KeyAfterPrefix(c, d);
    SplitAfterDigits(DecimalString(a), r1, DecimalString(c), r2);
    DecimalStringInjective(a, c);
    assert DecimalString(b) == r1[6..];
    assert DecimalString(d) == r2[6..];
    DecimalStringInjective(b, d);
  }

  // ---------------------------------------------------------------------------
  // Input values and file classification
  // ---------------------------------------------------------------------------

  datatype FileInfo = FileInfo(name: string, size: nat)

  /** A stored form value: text, a checkbox state, or an accepted file tagged with its kind. */
  datatype Stored = Str(s: string) | Checked(on: bool) | Video(file: FileInfo) | Pdf(file: FileInfo)

  /** What a change event delivers: a value, a checkbox state, or the first chosen file (if any). */
  datatype InputEvent = TextEvent(value: string) | CheckboxEvent(checked: bool) | FileEvent(file: Option<FileInfo>)

  const VideoExtensions: seq<string> := ["mp4", "avi", "mkv", "mov", "wmv"]

  /** 10 MiB, the largest video accepted. */
  const MaxVideoBytes: nat := 10 * 1024 * 1024

  /** `name.split('.').pop().toLowerCase()`: the text after the last dot, lower-cased. */
  function Extension(name: string): (r: string)
    ensures |r| <= |name| && '.' !in r
  {
    var last := LastSegment(name, '.');
    var r := ToLower(last);
    assert forall k :: 0 <= k < |r| ==> r[k] != '.';
    r
  }

  /**
   * The file branch of `handleInputChange`: a video (by extension, case-insensitively) of at
   * most 10 MiB, or a PDF, is kept with its kind; no file, an oversized video or any other
   * extension is refused (`None`).
   */
  function ClassifyFile(file: Option<FileInfo>): (r: Option<Stored>)
    ensures r.Some? ==> file.Some? && (r.value == Video(file.value) || r.value == Pdf(file.value))
    ensures r.Some? && r.value.Video? ==>
      Extension(file.value.name) in VideoExtensions && file.value.size <= MaxVideoBytes
    ensures r.Some? && r.value.Pdf? ==> Extension(file.value.name) == "pdf"
    ensures (file.Some? && (Extension(file.value.name) == "pdf"
             || (Extension(file.value.name) in VideoExtensions && file.value.size <= MaxVideoBytes))) ==> r.Some?
  {
    match file
    case None => None
    case Some(f) =>
      var ext := Extension(f.name);
      if ext in VideoExtensions then
        if f.size > MaxVideoBytes then None else Some(Video(f))
      else if ext == "pdf" then Some(Pdf(f))
      else None
  }

  lemma UpperCaseVideoAccepted()
    ensures ClassifyFile(Some(FileInfo("Demo.MP4", 5 * 1024 * 1024))) == Some(Video(FileInfo("Demo.MP4", 5 * 1024 * 1024)))
  {
    assert LastSegment("Demo.MP4", '.') == "MP4";
    assert ToLower("MP4") == "mp4";
  }

  /** Only the text after the last dot counts: a PDF name with another extension after it is refused. */
  lemma LastExtensionDecides()
    ensures ClassifyFile(Some(FileInfo("essay.pdf.zip", 1000))).None?
  {
    assert LastSegment("essay.pdf.zip", '.') == "zip";
    assert ToLower("zip") == "zip";
  }

  /** The value stored for an event, or `None` when the event is refused and nothing is stored. */
  function StoredValue(ev: InputEvent): (r: Option<Stored>)
    ensures r.None? <==> ev.FileEvent? && ClassifyFile(ev.file).None?
    ensures ev.TextEvent? ==> r == Some(Str(ev.value))
    ensures ev.CheckboxEvent? ==> r == Some(Checked(ev.checked))
  {
    match ev
    case TextEvent(v) => Some(Str(v))
    case CheckboxEvent(b) => Some(Checked(b))
    case FileEvent(f) => ClassifyFile(f)
  }

  // ---------------------------------------------------------------------------
  // Competitions
  // ---------------------------------------------------------------------------

  /** The competitions offered on the third step, in menu order. */
  const CompetitionNames: seq<string> := [
    "Student's Model-1", "Student's Model-2", "Quiz",
    "Eloquence - English", "Eloquence - Hindi", "Eloquence - Gujarati",
    "Essay - English", "Essay - Hindi", "Essay - Gujarati",
    "Poster", "Skit", "Teacher Model"
  ]

  /** `competitionEndpoints`: competition name to API path. */
  const Endpoints: map<string, string> := map[
    "Student's Model-1" := "/api/student-model-1",
    "Student's Model-2" := "/api/student-model-2",
    "Quiz" := "/api/quiz",
    "Eloquence - English" := "/api/eloquence/english",
    "Eloquence - Hindi" := "/api/eloquence/hindi",
    "Eloquence - Gujarati" := "/api/eloquence/gujarati",
    "Essay - English" := "/api/essay/english",
    "Essay - Hindi" := "/api/essay/hindi",
    "Essay - Gujarati" := "/api/essay/gujarati",
    "Poster" := "/api/poster",
    "Skit" := "/api/skit",
    "Teacher Model" := "/api/teacher-model"
  ]

  /** `competitionEndpoints[name]`, with `None` for an unknown name. */
  function Endpoint(name: string): (r: Option<string>)
    ensures r.Some? <==> name in Endpoints
  {
    if name in Endpoints then Some(Endpoints[name]) else None
  }

  /** Every competition offered in the menu has an endpoint, and every endpoint belongs to one. */
  lemma EndpointsCoverMenu()
    ensures forall name :: name in CompetitionNames ==> Endpoint(name).Some?
    ensures forall name :: name in Endpoints ==> name in CompetitionNames
  {
  }

  /** The placeholder option has no endpoint. */
  lemma PlaceholderHasNoEndpoint()
    ensures Endpoint("").None?
  {
  }

  /** A JSON value of a detail map: the inputs store strings; the mapped details hold one flag. */
  datatype Json = JStr(s: string) | JBool(b: bool)

  /** One competition's details, keyed by field name; a missing key is `undefined`. */
  type Details = map<string, Json>

  /** JavaScript truthiness of a possibly missing value. */
  predicate Present(cd: Details, key: string) {
    key in cd && match cd[key] { case JStr(s) => s != "" case JBool(b) => b }
  }

  /** The fields `handleSaveAndContinue` insists on, in the order it reports them. */
  const RequiredDetails: seq<string> :=
    ["participantName", "participantGender", "participantClass", "accommodationRequired", "declaration"]

  /** `requiredFields.filter(field => !details?.[field])`. */
  function MissingFields(cd: Details): (r: seq<string>)
    ensures Lists.IsSubsequence(r, RequiredDetails)
    ensures forall f :: f in r <==> f in RequiredDetails && !Present(cd, f)
  {
    var keep := f => !Present(cd, f);
    var r := Lists.Filter(RequiredDetails, keep);
    Lists.FilterIsSubsequence(RequiredDetails, keep);
    forall f ensures f in r <==> f in RequiredDetails && !Present(cd, f) {
      Lists.FilterMembership(RequiredDetails, keep, f);
    }
    r
  }

  /** Nothing is missing exactly when all five required fields are filled in. */
  lemma NothingMissingIff(cd: Details)
    ensures MissingFields(cd) == [] <==>
      Present(cd, "participantName") && Present(cd, "participantGender") && Present(cd, "participantClass")
      && Present(cd, "accommodationRequired") && Present(cd, "declaration")
  {
    var r := MissingFields(cd);
    if r != [] {
      assert r[0] in r;
    }
  }

  /** The keys `handleCompetitionSubmit` copies into the body of an essay submission. */
  const EssayKeys: set<string> :=
    {"participantName", "participantGender", "participantClass", "accommodationRequired", "essayFileUrl", "declaration"}

  predicate IsEssay(name: string) {
    name == "Essay - English" || name == "Essay - Hindi" || name == "Essay - Gujarati"
  }

  /** A competition submission: the endpoint, the school id, and the body fields (none when no case builds a body). */
  datatype Request = Request(endpoint: string, schoolId: Option<int>, body: Option<Details>)

  /**
   * `handleCompetitionSubmit`: an unknown competition throws before any request (`None`);
   * the three essay competitions send the essay keys of `cd` (absent keys are dropped);
   * the other competitions have no body.
   */
  function CompetitionRequest(name: string, cd: Details, schoolId: Option<int>): (r: Option<Request>)
    ensures r.Some? <==> name in Endpoints
    ensures r.Some? ==> r.value.endpoint == Endpoints[name] && r.value.schoolId == schoolId
    ensures r.Some? && IsEssay(name) ==>
      (r.value.body.Some?
       && (forall k :: k in r.value.body.value <==> k in EssayKeys && k in cd)
       && (forall k :: k in r.value.body.value ==> r.value.body.value[k] == cd[k]))
    ensures r.Some? && !IsEssay(name) ==> r.value.body.None?
  {
    match Endpoint(name)
    case None => None
    case Some(endpoint) =>
      Some(Request(endpoint, schoolId, if IsEssay(name) then Some(map k | k in cd && k in EssayKeys :: cd[k]) else None))
  }

  /**
   * The details `handleSaveAndContinue` sends, as written: it reads `field0`..`field5`,
   * keys that `handleCompetitionDetailChange` never writes (it stores under field names).
   */
  function MappedDetailsAsWritten(cd: Details): (r: Details)
    ensures forall k :: k in r ==> k in EssayKeys
    ensures "accommodationRequired" in r
    ensures r["accommodationRequired"] == JBool("field3" in cd && cd["field3"] == JStr("Yes"))
    ensures "participantName" in r <==> "field0" in cd
  {
    var m: Details := map["accommodationRequired" := JBool("field3" in cd && cd["field3"] == JStr("Yes"))];
    var m := if "field0" in cd then m["participantName" := cd["field0"]] else m;
    var m := if "field1" in cd then m["participantGender" := cd["field1"]] else m;
    var m := if "field2" in cd then m["participantClass" := cd["field2"]] else m;
    var m := if "field4" in cd then m["essayFileUrl" := cd["field4"]] else m;
    if "field5" in cd then m["declaration" := cd["field5"]] else m
  }

  /** A complete essay entry, as the detail inputs store it. */
  const SampleEntry: Details := map[
    "participantName" := JStr("Asha"), "participantGender" := JStr("Female"),
    "participantClass" := JStr("9th Std."), "accommodationRequired" := JStr("Yes"),
    "essayFileUrl" := JStr("https://example.org/essay.pdf"), "declaration" := JStr("on")]

  /**
   * With the mapping as written, any entry stored under the field names (as the detail inputs
   * store it) reaches the server without the participant's name and with accommodation refused.
   */
  lemma EnteredDetailsLostAsWritten(cd: Details)
    requires forall k :: k in cd ==> k in EssayKeys
    ensures "participantName" !in MappedDetailsAsWritten(cd)
    ensures MappedDetailsAsWritten(cd)["accommodationRequired"] == JBool(false)
  {
    assert "field0" !in cd && "field3" !in cd;
  }

  /**
   * The essay inputs of "Essay - English" and "Essay - Hindi" carry no `name`, so every
   * detail typed there is stored under the key "undefined": such an entry always misses the
   * required fields and can never be saved.
   */
  lemma UnnamedEntryNeverPasses(cd: Details)
    requires forall k :: k in cd ==> k == "undefined"
    ensures MissingFields(cd) != []
  {
    NothingMissingIff(cd);
  }

  /** The sample entry is stored under field names and passes the required-field check. */
  lemma SampleEntryPassesCheck()
    ensures forall k :: k in SampleEntry ==> k in EssayKeys
    ensures MissingFields(SampleEntry) == []
  {
    SampleEntryIsComplete();
    NothingMissingIff(SampleEntry);
  }

  lemma SampleEntryIsComplete()
    ensures Present(SampleEntry, "participantName") && Present(SampleEntry, "participantGender")
      && Present(SampleEntry, "participantClass") && Present(SampleEntry, "accommodationRequired")
      && Present(SampleEntry, "declaration")
  {
  }

  /** The details `handleSaveAndContinue` is evidently meant to send: the entered fields, with the accommodation answer as a flag. */
  function MappedDetails(cd: Details): (r: Details)
    ensures "accommodationRequired" in r
    ensures r["accommodationRequired"] == JBool("accommodationRequired" in cd && cd["accommodationRequired"] == JStr("Yes"))
    ensures forall k :: k in EssayKeys && k != "accommodationRequired" ==> (k in r <==> k in cd)
    ensures forall k :: k in r && k != "accommodationRequired" ==> k in EssayKeys && r[k] == cd[k]
  {
    var yes := "accommodationRequired" in cd && cd["accommodationRequired"] == JStr("Yes");
    (map k | k in cd && k in EssayKeys - {"accommodationRequired"} :: cd[k])["accommodationRequired" := JBool(yes)]
  }

  /** With the intended mapping, a complete essay entry is sent with every value the participant entered. */
  lemma SavedEssayCarriesEntry(name: string, cd: Details, schoolId: Option<int>)
    requires IsEssay(name) && MissingFields(cd) == []
    ensures CompetitionRequest(name, MappedDetails(cd), schoolId).Some?
    ensures var body := CompetitionRequest(name, MappedDetails(cd), schoolId).value.body.value;
      body["participantName"] == cd["participantName"] && body["participantGender"] == cd["participantGender"]
      && body["participantClass"] == cd["participantClass"] && body["declaration"] == cd["declaration"]
      && (body["accommodationRequired"] == JBool(true) <==> cd["accommodationRequired"] == JStr("Yes"))
  {
    NothingMissingIff(cd);
  }

  /** One entry of the final submission's competition list. */
  datatype Submitted = Submitted(name: string, id: int)

  /** `competitionDetails[name]`, with no details as the empty map. */
  function DetailsOf(details: map<string, Details>, name: string): Details {
    if name in details then details[name] else map[]
  }

  /**
   * What `handleSaveAndContinue` submits: nothing without a current competition or while a
   * required detail is missing, otherwise the competition's request with the details mapped
   * as written. Only a known competition whose details were entered can get as far as a
   * request; an essay's body is exactly the mapping as written.
   */
  function SaveRequest(name: string, details: map<string, Details>, schoolId: Option<int>): (r: Option<Request>)
    ensures r.Some? <==> name != "" && MissingFields(DetailsOf(details, name)) == [] && name in Endpoints
    ensures r.Some? ==> name in details && r.value.endpoint == Endpoints[name] && r.value.schoolId == schoolId
    ensures r.Some? && IsEssay(name) ==> r.value.body == Some(MappedDetailsAsWritten(DetailsOf(details, name)))
    ensures r.Some? && !IsEssay(name) ==> r.value.body.None?
  {
    var cd := DetailsOf(details, name);
    if name == "" || MissingFields(cd) != [] then None
    else
      NothingMissingIff(cd);
      var mapped := MappedDetailsAsWritten(cd);
      var r := CompetitionRequest(name, mapped, schoolId);
      assert r.Some? && IsEssay(name) ==> r.value.body.value == mapped;
      r
  }

  /**
   * As written, saving an essay whose details were entered under the field names posts a
   * body without the participant's name and with accommodation refused.
   */
  lemma SavedEssayLosesEntryAsWritten(name: string, details: map<string, Details>, schoolId: Option<int>)
    requires IsEssay(name) && SaveRequest(name, details, schoolId).Some?
    requires forall k :: k in DetailsOf(details, name) ==> k in EssayKeys
    ensures "participantName" !in SaveRequest(name, details, schoolId).value.body.value
    ensures SaveRequest(name, details, schoolId).value.body.value["accommodationRequired"] == JBool(false)
  {
    EnteredDetailsLostAsWritten(DetailsOf(details, name));
  }

  /**
   * The loop of `handleFinalSubmit`: submits the saved competitions in order, recording each
   * accepted one with the id the server returned, and stops at the first competition that is
   * unknown or refused. `outcomes[i]` is the server's answer to the i-th request.
   */
  method SubmitCompetitions(names: seq<string>, details: map<string, Details>, schoolId: Option<int>, outcomes: seq<Response>)
    returns (requests: seq<Request>, submitted: seq<Submitted>, allOk: bool)
    requires |outcomes| == |names|
    ensures |submitted| <= |names|
    ensures forall j :: 0 <= j < |submitted| ==> outcomes[j].Ok? && submitted[j] == Submitted(names[j], outcomes[j].id)
    ensures allOk <==> |submitted| == |names|
    ensures !allOk ==> !(names[|submitted|] in Endpoints) || outcomes[|submitted|].Failed?
    ensures |requests| == if !allOk && names[|submitted|] in Endpoints then |submitted| + 1 else |submitted|
    ensures forall j :: 0 <= j < |requests| ==>
      CompetitionRequest(names[j], DetailsOf(details, names[j]), schoolId) == Some(requests[j])
  {
    requests, submitted, allOk := [], [], true;
    var i := 0;
    while i < |names|
      invariant 0 <= i <= |names| && |submitted| == i && |requests| == i
      invariant forall j :: 0 <= j < i ==> outcomes[j].Ok? && submitted[j] == Submitted(names[j], outcomes[j].id)
      invariant forall j :: 0 <= j < i ==>
        CompetitionRequest(names[j], DetailsOf(details, names[j]), schoolId) == Some(requests[j])
    {
      var competition := names[i];
      var request := CompetitionRequest(competition, DetailsOf(details, competition), schoolId);
      if request.None? {
        allOk := false;
        break;
      }
      requests := requests + [request.value];
      if outcomes[i].Failed? {
        allOk := false;
        break;
      }
      submitted := submitted + [Submitted(competition, outcomes[i].id)];
      i := i + 1;
    }
  }

  // ---------------------------------------------------------------------------
  // The page
  // ---------------------------------------------------------------------------

  /** The keys the form data starts with: seven school inputs and three teacher inputs. */
  function InitialFormData(): map<string, Stored> {
    map k | k in StepKeys(0, 7) + StepKeys(1, 3) :: Str("")
  }

  /** The keys of the first `count` inputs of `step`. */
  function StepKeys(step: nat, count: nat): set<string> {
    if count == 0 then {} else StepKeys(step, count - 1) + {Key(step, count - 1)}
  }

  function Lookup(form: map<string, Stored>, key: string): Option<Stored> {
    if key in form then Some(form[key]) else None
  }

  /** The school request: each property taken from its input on the first step. */
  datatype SchoolBody = SchoolBody(
    name: Option<Stored>, address: Option<Stored>, city: Option<Stored>, pincode: Option<Stored>,
    affiliationNumber: Option<Stored>, coordinatorTeacherName: Option<Stored>, coordinatorTeacherMobile: Option<Stored>)

  /** The accompanying-teacher request. */
  datatype TeacherBody = TeacherBody(schoolId: Option<int>, name: Option<Stored>, gender: Option<Stored>, requiresAccommodation: bool)

  /** The final request. */
  datatype FinalBody = FinalBody(schoolId: Option<int>, accompanyingTeacherId: Option<int>, competitions: seq<Submitted>)

  /** The page state. An empty `currentCompetition` stands for both `null` and `''`. */
  class Registration {
    var currentStep: int
    var schoolId: Option<int>
    var teacherId: Option<int>
    var formData: map<string, Stored>
    var selectedCompetitions: seq<string>
    var currentCompetition: string
    var competitionDetails: map<string, Details>
    var filledCompetitions: seq<string>

    /**
     * The step moves only after the server accepts: step 1 has a school id, step 2 a teacher
     * id too. No competition is registered twice; the current and every saved competition
     * was registered, and every saved competition has details.
     */
    ghost predicate Valid()
      reads this
    {
      0 <= currentStep <= 2
      && (currentStep >= 1 ==> schoolId.Some?)
      && (currentStep == 2 ==> teacherId.Some?)
      && Lists.NoDuplicates(selectedCompetitions)
      && (currentCompetition != "" ==> currentCompetition in selectedCompetitions)
      && (forall c :: c in filledCompetitions ==> c in selectedCompetitions && c in competitionDetails)
    }

    constructor ()
      ensures Valid()
      ensures currentStep == 0 && schoolId.None? && teacherId.None? && formData == InitialFormData()
      ensures selectedCompetitions == [] && currentCompetition == "" && competitionDetails == map[] && filledCompetitions == []
    {
      currentStep := 0;
      schoolId := None;
      teacherId := None;
      formData := InitialFormData();
      selectedCompetitions := [];
      currentCompetition := "";
      competitionDetails := map[];
      filledCompetitions := [];
    }

    /**
     * `handleInputChange(index, value, type)`: stores the event's value under
     * `step{currentStep}_field{index}`; a refused file stores nothing.
     */
    method HandleInputChange(index: nat, ev: InputEvent) returns (refused: bool)
      requires Valid()
      modifies this`formData
      ensures Valid()
      ensures refused <==> StoredValue(ev).None?
      ensures refused ==> formData == old(formData)
      ensures !refused ==> formData == old(formData)[Key(currentStep, index) := StoredValue(ev).value]
    {
      match StoredValue(ev) {
        case None =>
          refused := true;
        case Some(newValue) =>
          formData := formData[Key(currentStep, index) := newValue];
          refused := false;
      }
    }

    /** `handleSchoolSubmit`: posts the school inputs; an accepted post records the id and moves to step 1. */
    method HandleSchoolSubmit(outcome: Response) returns (body: SchoolBody)
      requires Valid() && currentStep == 0
      modifies this`schoolId, this`currentStep
      ensures Valid()
      ensures body == SchoolBody(
        Lookup(formData, Key(0, 2)), Lookup(formData, Key(0, 3)), Lookup(formData, Key(0, 4)),
        Lookup(formData, Key(0, 5)), Lookup(formData, Key(0, 6)), Lookup(formData, Key(0, 0)), Lookup(formData, Key(0, 1)))
      ensures outcome.Ok? ==> schoolId == Some(outcome.id) && currentStep == 1
      ensures outcome.Failed? ==> schoolId == old(schoolId) && currentStep == 0
    {
      body := SchoolBody(
        Lookup(formData, Key(0, 2)), Lookup(formData, Key(0, 3)), Lookup(formData, Key(0, 4)),
        Lookup(formData, Key(0, 5)), Lookup(formData, Key(0, 6)), Lookup(formData, Key(0, 0)), Lookup(formData, Key(0, 1)));
      if outcome.Ok? {
        schoolId := Some(outcome.id);
        currentStep := 1;
      }
    }

    /**
     * `handleAccompanyingTeacherSubmit`: posts the teacher inputs with the school id; an
     * accepted post records the teacher id and moves to step 2.
     */
    method HandleTeacherSubmit(outcome: Response) returns (body: TeacherBody)
      requires Valid() && currentStep == 1
      modifies this`teacherId, this`currentStep
      ensures Valid()
      ensures body == TeacherBody(schoolId, Lookup(formData, Key(1, 0)), Lookup(formData, Key(1, 1)),
                                  Lookup(formData, Key(1, 2)) == Some(Str("Yes")))
      ensures outcome.Ok? ==> teacherId == Some(outcome.id) && currentStep == 2
      ensures outcome.Failed? ==> teacherId == old(teacherId) && currentStep == 1
    {
      body := TeacherBody(schoolId, Lookup(formData, Key(1, 0)), Lookup(formData, Key(1, 1)),
                          Lookup(formData, Key(1, 2)) == Some(Str("Yes")));
      if outcome.Ok? {
        teacherId := Some(outcome.id);
        currentStep := 2;
      }
    }

    /**
     * `handleCompetitionSelection(name)`: a competition not yet registered is created on the
     * server first (`requested`); if that fails nothing changes. A registered competition
     * becomes the current one without a request.
     */
    method HandleCompetitionSelection(name: string, created: bool) returns (requested: bool)
      requires Valid()
      modifies this`selectedCompetitions, this`currentCompetition
      ensures Valid()
      ensures requested <==> name !in old(selectedCompetitions)
      ensures requested && !created ==>
        selectedCompetitions == old(selectedCompetitions) && currentCompetition == old(currentCompetition)
      ensures requested && created ==>
        selectedCompetitions == old(selectedCompetitions) + [name] && currentCompetition == name
      ensures !requested ==> selectedCompetitions == old(selectedCompetitions) && currentCompetition == name
    {
      requested := name !in selectedCompetitions;
      if requested {
        if !created {
          return;
        }
        selectedCompetitions := selectedCompetitions + [name];
      }
      currentCompetition := name;
    }

    /** `handleCompetitionDetailChange(field, value)`: sets one field of the current competition's details. */
    method HandleCompetitionDetailChange(fieldName: string, value: string)
      requires Valid() && currentCompetition != ""
      modifies this`competitionDetails
      ensures Valid()
      ensures competitionDetails ==
        old(competitionDetails)[currentCompetition := DetailsOf(old(competitionDetails), currentCompetition)[fieldName := JStr(value)]]
    {
      competitionDetails := competitionDetails[currentCompetition :=
        DetailsOf(competitionDetails, currentCompetition)[fieldName := JStr(value)]];
    }

    /**
     * `handleSaveAndContinue`: with a current competition whose required fields are all filled
     * in, submits its mapped details; when that succeeds the competition is appended to the
     * saved list and the current competition is cleared. In every other case nothing changes.
     */
    method HandleSaveAndContinue(serverAccepts: bool) returns (request: Option<Request>)
      requires Valid()
      modifies this`filledCompetitions, this`currentCompetition
      ensures Valid()
      ensures request == SaveRequest(old(currentCompetition), old(competitionDetails), old(schoolId))
      ensures request.Some? && serverAccepts ==>
        filledCompetitions == old(filledCompetitions) + [old(currentCompetition)] && currentCompetition == ""
      ensures !(request.Some? && serverAccepts) ==>
        filledCompetitions == old(filledCompetitions) && currentCompetition == old(currentCompetition)
    {
      request := SaveRequest(currentCompetition, competitionDetails, schoolId);
      if request.Some? && serverAccepts {
        RecordFilled();
      }
    }

    /** A saved competition joins the filled list and stops being the current one. */
    method RecordFilled()
      requires Valid() && currentCompetition != "" && currentCompetition in competitionDetails
      modifies this`filledCompetitions, this`currentCompetition
      ensures Valid()
      ensures filledCompetitions == old(filledCompetitions) + [old(currentCompetition)] && currentCompetition == ""
    {
      filledCompetitions := filledCompetitions + [currentCompetition];
      currentCompetition := "";
    }

    /**
     * `handleFinalSubmit`: refuses when nothing was saved; otherwise submits every saved
     * competition in order and, only if all were accepted, posts the final form. When that is
     * accepted too, the saved list and the current competition are cleared.
     */
    method HandleFinalSubmit(outcomes: seq<Response>, finalAccepted: bool)
      returns (requests: seq<Request>, finalPost: Option<FinalBody>)
      requires Valid() && |outcomes| == |filledCompetitions|
      modifies this`filledCompetitions, this`currentCompetition
      ensures Valid()
      ensures old(filledCompetitions) == [] ==> requests == [] && finalPost.None?
      ensures |requests| <= |old(filledCompetitions)|
      ensures forall j :: 0 <= j < |requests| ==>
        CompetitionRequest(old(filledCompetitions)[j], competitionDetails[old(filledCompetitions)[j]], schoolId) == Some(requests[j])
      ensures forall j :: 0 <= j < |requests| - 1 ==> outcomes[j].Ok?
      ensures old(filledCompetitions) != [] && finalPost.None? ==>
        (|requests| > 0 && outcomes[|requests| - 1].Failed?)
        || (|requests| < |old(filledCompetitions)| && old(filledCompetitions)[|requests|] !in Endpoints)
      ensures (old(filledCompetitions) != [] && (forall j :: 0 <= j < |outcomes| ==> outcomes[j].Ok?)
               && (forall c :: c in old(filledCompetitions) ==> c in Endpoints)) ==> finalPost.Some?
      ensures finalPost.Some? ==>
        (|requests| == |old(filledCompetitions)|
         && |finalPost.value.competitions| == |old(filledCompetitions)|
         && (forall j :: 0 <= j < |requests| ==>
               outcomes[j].Ok? && finalPost.value.competitions[j] == Submitted(old(filledCompetitions)[j], outcomes[j].id))
         && finalPost.value.schoolId == schoolId && finalPost.value.accompanyingTeacherId == teacherId)
      ensures finalPost.Some? && finalAccepted ==> filledCompetitions == [] && currentCompetition == ""
      ensures !(finalPost.Some? && finalAccepted) ==>
        filledCompetitions == old(filledCompetitions) && currentCompetition == old(currentCompetition)
    {
      if |filledCompetitions| == 0 {
        return [], None;
      }
      var submitted, allOk;
      requests, submitted, allOk := SubmitCompetitions(filledCompetitions, competitionDetails, schoolId, outcomes);
      if !allOk {
        return requests, None;
      }
      finalPost := Some(FinalBody(schoolId, teacherId, submitted));
      if finalAccepted {
        filledCompetitions := [];
        currentCompetition := "";
      }
    }
  }
}
