/**
 * The visit-booking form: a five-step wizard (step 1 is an introduction, steps 2-5 collect
 * institution, head-count, contact and schedule details). Text inputs and radio buttons
 * store a string; the campus and material checkboxes keep lists. Each step has hand-written
 * rules; Next advances only past a valid step, and a successful submit resets everything.
 */
module VisitorForm {
  import opened Outcomes
  import opened Text
  import Lists

  /** The form state: the string-valued inputs and the two checkbox lists. */
  datatype VisitorData = VisitorData(texts: map<string, string>, lists: map<string, seq<string>>)

  /** The names of the string-valued inputs. */
  const TextFields: set<string> := {
    "institutionName", "studentBranch", "studentSem", "numStudents", "numFaculty",
    "name", "position", "email", "mobile", "ipr_time", "fcipt_time", "visit_date", "visit_time"
  }

  /** The names of the checkbox groups. */
  const ListFields: set<string> := {"campus", "materials"}

  /** Every text input is the empty string and every checkbox list is empty. */
  function InitialData(): (d: VisitorData)
    ensures d.texts.Keys == TextFields && d.lists.Keys == ListFields
    ensures forall k :: k in d.texts ==> d.texts[k] == ""
    ensures forall k :: k in d.lists ==> d.lists[k] == []
  {
    VisitorData(map k | k in TextFields :: "", map k | k in ListFields :: [])
  }

  /** The form holds exactly the inputs it started with. */
  ghost predicate WellShaped(d: VisitorData) {
    d.texts.Keys == TextFields && d.lists.Keys == ListFields
  }

  /** The value of a text input (every text input exists in a well-shaped form). */
  function Value(d: VisitorData, name: string): string {
    if name in d.texts then d.texts[name] else ""
  }

  /** The items of a checkbox group. */
  function Items(d: VisitorData, name: string): seq<string> {
    if name in d.lists then d.lists[name] else []
  }

  // ---------------------------------------------------------------------------
  // handleChange
  // ---------------------------------------------------------------------------

  /** What an input event carries: a plain value, or a checkbox value with its new checked state. */
  datatype Input = Plain(value: string) | Checkbox(item: string, checked: bool)

  /**
   * The form-data update of `handleChange`: a checked box appends its value to the group,
   * an unchecked one removes every occurrence of it; any other input replaces its value.
   * Nothing else changes.
   */
  function Change(d: VisitorData, name: string, input: Input): (r: VisitorData)
    requires input.Checkbox? ==> name in d.lists
    ensures input.Plain? ==> r.lists == d.lists && r.texts == d.texts[name := input.value]
    ensures input.Checkbox? ==> (r.texts == d.texts && r.lists.Keys == d.lists.Keys
                                 && forall k :: k in d.lists && k != name ==> r.lists[k] == d.lists[k])
    ensures input.Checkbox? && input.checked ==> r.lists[name] == d.lists[name] + [input.item]
    ensures input.Checkbox? && !input.checked ==>
      (input.item !in r.lists[name] && Lists.IsSubsequence(r.lists[name], d.lists[name])
       && forall y :: y in d.lists[name] && y != input.item ==> y in r.lists[name])
    ensures input.Checkbox? && !input.checked ==>
      multiset(r.lists[name]) == multiset(d.lists[name])[input.item := 0]
  {
    match input
    case Plain(value) => d.(texts := d.texts[name := value])
    case Checkbox(item, checked) =>
      var items := d.lists[name];
      d.(lists := d.lists[name := if checked then items + [item] else Lists.RemoveAll(items, item)])
  }

  /** Ticking a box that was clear and clearing it again restores the group exactly. */
  lemma CheckThenUncheck(d: VisitorData, name: string, item: string)
    requires name in d.lists && item !in d.lists[name]
    ensures Change(Change(d, name, Checkbox(item, true)), name, Checkbox(item, false)) == d
  {
    Lists.RemoveAllAppended(d.lists[name], item);
  }

  /**
   * The campus boxes are drawn without a `checked` prop, so a return to the schedule step can
   * tick a campus a second time. Clearing another campus then keeps both copies.
   */
  lemma UncheckKeepsDuplicates(d: VisitorData, a: string, b: string)
    requires "campus" in d.lists && d.lists["campus"] == [a, a, b] && a != b
    ensures Change(d, "campus", Checkbox(b, false)).lists["campus"] == [a, a]
  {
    assert d.lists["campus"] == [a, a] + [b];
    Lists.RemoveAllAppended([a, a], b);
  }

  // ---------------------------------------------------------------------------
  // Field rules
  // ---------------------------------------------------------------------------

  /** `/^\d{10}$/.test(s)`: exactly ten ASCII digits. */
  predicate TenDigits(s: string) {
    |s| == 10 && forall k :: 0 <= k < |s| ==> IsDigit(s[k])
  }

  /**
   * One match of `/\S+@\S+\.\S+/` with the `@` at `a` and the `.` at `d`: a non-space just
   * before the `@`, a non-empty run of non-spaces between them, and a non-space after the `.`.
   */
  predicate EmailAt(s: string, a: int, d: int) {
    1 <= a && a + 1 < d && d + 1 < |s| && s[a] == '@' && s[d] == '.'
    && !IsSpace(s[a - 1]) && !IsSpace(s[d + 1]) && NoSpaceBetween(s, a + 1, d)
  }

  /** `s[lo..hi]` holds no whitespace. */
  predicate NoSpaceBetween(s: string, lo: int, hi: int)
    requires 0 <= lo <= hi <= |s|
    decreases hi - lo
  {
    lo == hi || (!IsSpace(s[lo]) && NoSpaceBetween(s, lo + 1, hi))
  }

  /** `/\S+@\S+\.\S+/.test(s)`: the pattern occurs somewhere in `s` (it is not anchored). */
  predicate EmailLike(s: string)
    ensures EmailLike(s) ==> |s| >= 5
  {
    exists a, d | 0 <= a < |s| && 0 <= d < |s| :: EmailAt(s, a, d)
  }

  /** A string that matches the e-mail pattern is never blank. */
  lemma EmailIsNotBlank(s: string)
    requires EmailLike(s)
    ensures !IsBlank(s)
  {
    var a, d :| 0 <= a < |s| && 0 <= d < |s| && EmailAt(s, a, d);
    BlankIffAllSpace(s);
    assert s[a] == '@';
  }

  /** A string without `@` never matches the e-mail pattern. */
  lemma EmailNeedsAt(s: string)
    requires forall k :: 0 <= k < |s| ==> s[k] != '@'
    ensures !EmailLike(s)
  {
  }

  lemma EmailExample()
    ensures EmailLike("ab@ipr.res.in")
  {
    assert EmailAt("ab@ipr.res.in", 2, 6);
  }

  /** Ten digits are never blank. */
  lemma TenDigitsNotBlank(s: string)
    requires TenDigits(s)
    ensures !IsBlank(s)
  {
    DigitsAreNotBlank(s);
  }

  /**
   * The head-count rule as written: blank, or `parseInt(s) <= 0`. When `parseInt` gives
   * `NaN` the comparison is false, so such a value is not rejected.
   */
  predicate CountRejectedAsWritten(s: string) {
    IsBlank(s) || (ParseInt(s).Some? && ParseInt(s).value <= 0)
  }

  /**
   * ".5" is a value a number input accepts; `parseInt(".5")` is `NaN`, so the rule as written
   * lets it through and the submitted head count is `null`.
   */
  lemma CountAsWrittenAcceptsNaN()
    ensures !CountRejectedAsWritten(".5") && ParseInt(".5").None?
  {
    assert !IsSpace('.') && !IsSpace('5');
    assert TrimStart(".5") == ".5";
    assert TrimEnd(".5") == ".5";
    assert DigitValue('.') == 16;
    assert DigitPrefix(".5", 10) == [];
  }

  /** The head-count rule as intended: rejected unless `parseInt` yields a positive number. */
  function CountRejected(s: string): (r: bool)
    ensures !r <==> ParseInt(s).Some? && ParseInt(s).value > 0
  {
    if IsBlank(s) then
      BlankParsesToNothing(s);
      true
    else ParseInt(s).None? || ParseInt(s).value <= 0
  }

  /** Every positive number written in decimal passes the head-count rule. */
  lemma DecimalCountAccepted(n: nat)
    requires n > 0
    ensures !CountRejected(DecimalString(n))
  {
    ParseIntOfDecimalString(n);
  }

  // ---------------------------------------------------------------------------
  // validateStep
  // ---------------------------------------------------------------------------

  /** `if (failed) stepErrors[key] = message`. */
  function Flag(errors: map<string, string>, failed: bool, key: string, message: string): (r: map<string, string>)
    ensures r == map[] <==> errors == map[] && !failed
  {
    assert failed ==> key in errors[key := message];
    if failed then errors[key := message] else errors
  }

  /** The input names a step validates. */
  function StepFields(step: int): set<string> {
    if step == 2 then {"institutionName", "studentBranch", "studentSem"}
    else if step == 3 then {"numStudents", "numFaculty"}
    else if step == 4 then {"name", "position", "email", "mobile"}
    else if step == 5 then {"campus", "visit_date", "visit_time"}
    else {}
  }

  /** Step 2: institution name, branch and a digits-only semester. */
  function InstitutionErrors(d: VisitorData): map<string, string> {
    Flag(
      Flag(
        Flag(map[], IsBlank(Value(d, "institutionName")), "institutionName", "Institution name is required"),
        IsBlank(Value(d, "studentBranch")), "studentBranch", "Student branch is required"),
      IsBlank(Value(d, "studentSem")) || !AllDigits(Value(d, "studentSem")), "studentSem", "Valid semester is required")
  }

  /** Step 3: the two head counts, under the rule as written. */
  function HeadCountErrors(d: VisitorData): map<string, string> {
    Flag(
      Flag(map[], CountRejectedAsWritten(Value(d, "numStudents")), "numStudents", "Valid number of students is required"),
      CountRejectedAsWritten(Value(d, "numFaculty")), "numFaculty", "Valid number of faculty is required")
  }

  /** Step 3 under the intended rule: each head count must parse to a positive number. */
  function CorrectedHeadCountErrors(d: VisitorData): map<string, string> {
    Flag(
      Flag(map[], CountRejected(Value(d, "numStudents")), "numStudents", "Valid number of students is required"),
      CountRejected(Value(d, "numFaculty")), "numFaculty", "Valid number of faculty is required")
  }

  /** Step 4: contact name, position, e-mail and mobile. */
  function ContactErrors(d: VisitorData): map<string, string> {
    Flag(
      Flag(
        Flag(
          Flag(map[], IsBlank(Value(d, "name")), "name", "Name is required"),
          IsBlank(Value(d, "position")), "position", "Position is required"),
        IsBlank(Value(d, "email")) || !EmailLike(Value(d, "email")), "email", "Valid email is required"),
      IsBlank(Value(d, "mobile")) || !TenDigits(Value(d, "mobile")), "mobile", "Valid 10-digit mobile number is required")
  }

  /** Step 5: at least one campus, a date and a time. */
  function ScheduleErrors(d: VisitorData): map<string, string> {
    Flag(
      Flag(
        Flag(map[], |Items(d, "campus")| == 0, "campus", "Please select at least one campus"),
        Value(d, "visit_date") == "", "visit_date", "Visit date is required"),
      Value(d, "visit_time") == "", "visit_time", "Visit time is required")
  }

  /** The error map `validateStep` builds on `step`; steps without rules yield none. */
  function StepErrors(step: int, d: VisitorData): (r: map<string, string>)
    ensures r.Keys <= StepFields(step)
  {
    if step == 2 then InstitutionErrors(d)
    else if step == 3 then HeadCountErrors(d)
    else if step == 4 then ContactErrors(d)
    else if step == 5 then ScheduleErrors(d)
    else map[]
  }

  /** What each step demands of the form, stated positively. */
  predicate StepPasses(step: int, d: VisitorData) {
    if step == 2 then
      !IsBlank(Value(d, "institutionName")) && !IsBlank(Value(d, "studentBranch")) && AllDigits(Value(d, "studentSem"))
    else if step == 3 then
      !IsBlank(Value(d, "numStudents")) && (ParseInt(Value(d, "numStudents")).None? || ParseInt(Value(d, "numStudents")).value > 0)
      && !IsBlank(Value(d, "numFaculty")) && (ParseInt(Value(d, "numFaculty")).None? || ParseInt(Value(d, "numFaculty")).value > 0)
    else if step == 4 then
      !IsBlank(Value(d, "name")) && !IsBlank(Value(d, "position"))
      && EmailLike(Value(d, "email")) && TenDigits(Value(d, "mobile"))
    else if step == 5 then
      |Items(d, "campus")| > 0 && Value(d, "visit_date") != "" && Value(d, "visit_time") != ""
    else true
  }

  /**
   * A step validates exactly when its rules hold: a digits-only semester, head counts that
   * are not blank and do not parse to a number at most 0, an e-mail-shaped address and a ten-digit mobile, a campus and a date and time;
   * step 1 (and any other) always validates.
   */
  lemma StepErrorsEmptyIff(step: int, d: VisitorData)
    ensures StepErrors(step, d) == map[] <==> StepPasses(step, d)
  {
    if step == 2 {
      InstitutionStepPasses(d);
    } else if step == 3 {
      HeadCountStepPasses(d);
    } else if step == 4 {
      ContactStepPasses(d);
    } else if step == 5 {
      ScheduleStepPasses(d);
    }
  }

  lemma InstitutionStepPasses(d: VisitorData)
    ensures InstitutionErrors(d) == map[] <==> StepPasses(2, d)
  {
    if AllDigits(Value(d, "studentSem")) {
      DigitsAreNotBlank(Value(d, "studentSem"));
    }
  }

  lemma HeadCountStepPasses(d: VisitorData)
    ensures HeadCountErrors(d) == map[] <==> StepPasses(3, d)
  {
  }

  lemma ContactStepPasses(d: VisitorData)
    ensures ContactErrors(d) == map[] <==> StepPasses(4, d)
  {
    if EmailLike(Value(d, "email")) {
      EmailIsNotBlank(Value(d, "email"));
    }
    if TenDigits(Value(d, "mobile")) {
      TenDigitsNotBlank(Value(d, "mobile"));
    }
  }

  lemma ScheduleStepPasses(d: VisitorData)
    ensures ScheduleErrors(d) == map[] <==> StepPasses(5, d)
  {
  }

  // ---------------------------------------------------------------------------
  // Submission payload
  // ---------------------------------------------------------------------------

  /**
   * The posted body: every input, with the semester and the two head counts replaced by
   * their `parseInt` values (`None` standing for `NaN`, which is posted as `null`).
   */
  datatype Payload = Payload(
    texts: map<string, string>, lists: map<string, seq<string>>,
    studentSem: Option<int>, numStudents: Option<int>, numFaculty: Option<int>)

  const NumericFields: set<string> := {"studentSem", "numStudents", "numFaculty"}

  function MakePayload(d: VisitorData): (p: Payload)
    ensures p.texts.Keys == d.texts.Keys - NumericFields && p.lists == d.lists
    ensures forall k :: k in p.texts ==> p.texts[k] == d.texts[k]
    ensures p.studentSem == ParseInt(Value(d, "studentSem"))
    ensures p.numStudents == ParseInt(Value(d, "numStudents")) && p.numFaculty == ParseInt(Value(d, "numFaculty"))
  {
    Payload(
      map k | k in d.texts && k !in NumericFields :: d.texts[k], d.lists,
      ParseInt(Value(d, "studentSem")), ParseInt(Value(d, "numStudents")), ParseInt(Value(d, "numFaculty")))
  }

  /**
   * Once steps 2 and 3 validate, the posted semester is a number, and each head count is
   * either a positive number or `null`: the rule as written lets a `NaN` count through.
   */
  lemma PayloadNumbersAsWritten(d: VisitorData)
    requires StepErrors(2, d) == map[] && StepErrors(3, d) == map[]
    ensures MakePayload(d).studentSem.Some? && MakePayload(d).studentSem.value >= 0
    ensures MakePayload(d).numStudents.None? || MakePayload(d).numStudents.value > 0
    ensures MakePayload(d).numFaculty.None? || MakePayload(d).numFaculty.value > 0
  {
    StepErrorsEmptyIff(2, d);
    StepErrorsEmptyIff(3, d);
    DigitsParse(Value(d, "studentSem"));
  }

  /** The form with both head counts typed as ".5". */
  function HalfCounts(): VisitorData {
    var d := InitialData();
    d.(texts := d.texts["numStudents" := ".5"]["numFaculty" := ".5"])
  }

  /** As written, head counts of ".5" pass step 3 and are posted as `null`. */
  lemma NaNCountPostedAsNull()
    ensures StepErrors(3, HalfCounts()) == map[]
    ensures MakePayload(HalfCounts()).numStudents.None? && MakePayload(HalfCounts()).numFaculty.None?
  {
    CountAsWrittenAcceptsNaN();
    assert Value(HalfCounts(), "numStudents") == ".5" && Value(HalfCounts(), "numFaculty") == ".5";
  }

  /** The intended rule is stricter than the one written: it only adds the `NaN` counts. */
  lemma CorrectionOnlyRejectsNaN(d: VisitorData)
    ensures CorrectedHeadCountErrors(d) == map[] ==> HeadCountErrors(d) == map[]
    ensures HeadCountErrors(d) == map[] && CorrectedHeadCountErrors(d) != map[] ==>
      ParseInt(Value(d, "numStudents")).None? || ParseInt(Value(d, "numFaculty")).None?
  {
    CountRuleStricter(Value(d, "numStudents"));
    CountRuleStricter(Value(d, "numFaculty"));
  }

  /** One head count: the intended rule rejects what the written one does, and `NaN` besides. */
  lemma CountRuleStricter(s: string)
    ensures !CountRejected(s) ==> !CountRejectedAsWritten(s)
    ensures !CountRejectedAsWritten(s) && CountRejected(s) ==> ParseInt(s).None?
  {
    if IsBlank(s) {
      BlankParsesToNothing(s);
    }
  }

  /**
   * Under the intended rule, once steps 2 and 3 validate the posted semester is a number
   * and both head counts are positive numbers: none of them is posted as `null`.
   */
  lemma CorrectedPayloadNumbersPresent(d: VisitorData)
    requires StepErrors(2, d) == map[] && CorrectedHeadCountErrors(d) == map[]
    ensures MakePayload(d).studentSem.Some? && MakePayload(d).studentSem.value >= 0
    ensures MakePayload(d).numStudents.Some? && MakePayload(d).numStudents.value > 0
    ensures MakePayload(d).numFaculty.Some? && MakePayload(d).numFaculty.value > 0
  {
    StepErrorsEmptyIff(2, d);
    DigitsParse(Value(d, "studentSem"));
  }

  // ---------------------------------------------------------------------------
  // The wizard
  // ---------------------------------------------------------------------------

  /** The component's state: the step (1 to 5), the form data and the error map. */
  class Wizard {
    var step: int
    var data: VisitorData
    var errors: map<string, string>

    ghost predicate Valid()
      reads this
    {
      1 <= step <= 5 && WellShaped(data)
    }

    constructor ()
      ensures Valid()
      ensures step == 1 && data == InitialData() && errors == map[]
    {
      step := 1;
      data := InitialData();
      errors := map[];
    }

    /** `handleChange(e)`: updates the input and blanks that input's error entry. */
    method HandleChange(name: string, input: Input)
      requires Valid()
      requires if input.Checkbox? then name in ListFields else name in TextFields
      modifies this`data, this`errors
      ensures Valid()
      ensures data == Change(old(data), name, input)
      ensures errors == old(errors)[name := ""]
    {
      data := Change(data, name, input);
      errors := errors[name := ""];
    }

    /** `validateStep()`: applies the rules of the current step; valid when no key was added. */
    method ValidateStep() returns (isValid: bool)
      modifies this`errors
      ensures errors == StepErrors(step, data)
      ensures isValid <==> errors == map[]
    {
      errors := StepErrors(step, data);
      isValid := errors == map[];
    }

    /** `handleNext()`: offered before the last step; moves on by one only when the step validates. */
    method HandleNext()
      requires Valid() && step < 5
      modifies this`errors, this`step
      ensures Valid() && data == old(data)
      ensures errors == StepErrors(old(step), data)
      ensures step == if StepPasses(old(step), data) then old(step) + 1 else old(step)
    {
      var ok := ValidateStep();
      StepErrorsEmptyIff(step, data);
      if ok {
        step := step + 1;
      }
    }

    /** `handleBack()`: offered after the first step; goes back one step without validating. */
    method HandleBack()
      requires Valid() && step > 1
      modifies this`step
      ensures Valid() && step == old(step) - 1
    {
      step := step - 1;
    }

    /**
     * `handleSubmit()` (the submit button exists only on the last step): validates that step;
     * when it passes, posts `MakePayload(data)` and, if the server accepts, resets every input
     * and returns to step 1. A refused or failed post leaves the form as it was.
     */
    method HandleSubmit(serverAccepts: bool) returns (posted: Option<Payload>)
      requires Valid() && step == 5
      modifies this`errors, this`data, this`step
      ensures Valid()
      ensures errors == StepErrors(5, old(data))
      ensures posted == if StepPasses(5, old(data)) then Some(MakePayload(old(data))) else None
      ensures posted.Some? && serverAccepts ==> data == InitialData() && step == 1
      ensures !(posted.Some? && serverAccepts) ==> data == old(data) && step == 5
    {
      var ok := ValidateStep();
      StepErrorsEmptyIff(step, data);
      if !ok {
        return None;
      }
      posted := Some(MakePayload(data));
      if serverAccepts {
        data := InitialData();
        step := 1;
      }
    }
  }
}
