# IPR outreach forms and admin pages — a Dafny model

The repository holds the browser side of the outreach portal of the Institute for Plasma
Research (IPR). It is a set of React pages that collect registrations and show them to an
administrator:

- the **exhibition-venue questionnaire**: a six-step wizard whose state is a reducer;
- the **visitor booking form**: a five-step wizard with per-step validation;
- the **visit feedback form**: a feedback record followed by a ratings record that refers to it;
- the **National Science Day registration**: school, then accompanying teacher, then one entry
  per competition, then a final submission;
- the **admin pages**: the feedback, visitor and exhibition tables with selection, bulk
  delete, search and export, the dashboard search and the date-picking calendar.

The model keeps each page's own form.

- **Page state** is a Dafny `class`. Its fields are the page's `useState`/`useReducer`
  variables. Each event handler is a `method` that `modifies` exactly the fields the handler
  sets. A handler's `ensures` gives the new state as a function of the old one.
- **Pure helpers** are functions with lemmas about them. These are the reducer, the validation
  rules, the toggle-selection idiom, filtering, export rows, the weekday formula and date keys.
- **Network requests** are parameters of the handler that issues them. A request's outcome is
  a `Response` (`Ok(id)` or `Failed`), or a plain boolean when the handler does not read the
  reply. The request body the handler would send is returned, so its contents can be stated.
- **JavaScript values** keep their shapes:
  - text is `string`;
  - `parseInt` is a function returning `Option<int>`, where `None` stands for `NaN`;
  - `Number(x)` truthiness is a predicate over the accepted numeric grammar;
  - a record fetched from a server is a map from field names to a small `Value` type.

The page models run the code as written, including the three defects under "## Findings".
Each corrected definition sits beside the as-written one, with its intended property proved.

Modules, one file each:

- `Outcomes`: `Option` and `Response`.
- `Text`: trim, digits, `parseInt`, `Number` truthiness, lower-casing, `includes`, `join`.
- `Lists`: `filter`, the toggle idiom and subsequences.
- `ExhibitionForm`, `VisitorForm`, `FeedbackForm`, `ScienceDay`: the four forms.
- `AdminTables`: records, deletion, select-all and export rows, shared by the admin tables.
- `FeedbackAdmin`, `VisitorAdmin`, `ExhibitionAdmin`, `Calendar`, `Dashboard`: the admin pages.

## Model

| member | source | states |
|---|---|---|
| Text.TrimStart | Visitor/client/src/components/VisitorsForm.js:74 | `trimStart` drops exactly a run of leading white space: the result is a suffix, every dropped character is a space, and the result starts with a non-space |
| Text.TrimEnd | Visitor/client/src/components/VisitorsForm.js:74 | `trimEnd` drops exactly a run of trailing white space: the result is a prefix, every dropped character is a space, and the result ends with a non-space |
| Text.Trim | Visitor/client/src/components/VisitorsForm.js:74 | a non-empty trimmed string neither starts nor ends with white space |
| Text.BlankIffAllSpace | Visitor/client/src/components/VisitorsForm.js:74 | `!s.trim()` holds exactly when every character of `s` is white space |
| Text.DigitsAreNotBlank | Visitor/client/src/components/VisitorsForm.js:78 | a string matching `^\d+$` is never blank |
| Text.DecimalString | Feedback/client/src/components/feedback.js:246-257 | the text of a number is all digits, one digit exactly below 10, and has no leading zero |
| Text.IntString | Admin/client/src/components/visitorsDetailpage.js:121-122 | `toString()` of an id: digits for a non-negative id, a minus sign then digits otherwise |
| Text.DecimalStringInjective | Feedback/client/src/components/feedback.js:246-257 | different numbers have different texts |
| Text.DigitPrefix | Visitor/client/src/components/VisitorsForm.js:129-131 | the longest prefix of digits valid in the radix: every kept character is a digit and the next one is not |
| Text.BlankParsesToNothing | Feedback/client/src/components/feedback.js:101-109 | `parseInt` of a blank string is `NaN` |
| Text.DigitsParse | Visitor/client/src/components/VisitorsForm.js:129 | `parseInt` of a digit string is a non-negative number |
| Text.ParseInt | Visitor/client/src/components/VisitorsForm.js:82 | `parseInt` without a radix: a negative result comes only from a leading minus after white space |
| Text.DigitsValueOfDecimal | Feedback/client/src/components/feedback.js:101-109 | reading the digits of a number's text gives the number back |
| Text.ParseIntOfDecimalString | Feedback/client/src/components/feedback.js:101-109 | round trip: `parseInt(String(n)) == n` for every natural `n` |
| Text.ParseIntOfDigits | Visitor/client/src/components/VisitorsForm.js:129-131 | `parseInt` of a string of decimal digits (not a `0x` literal) is the number those digits denote |
| Text.ExponentStart | Exhibition/client/src/components/iprexhibition.js:133 | locates the first `e`/`E` of a numeric literal, or its end when there is none |
| Text.BlankIsNotTruthy | Exhibition/client/src/components/iprexhibition.js:133 | `Number` of a blank string is 0, so `!Number(v)` holds |
| Text.NumberIsTruthy | Exhibition/client/src/components/iprexhibition.js:133 | `Number(v)` is truthy exactly for a non-zero decimal, `0x`/`0o`/`0b` literal (letter digits included) or `Infinity` after trimming |
| Text.HexLiteralTruthy | Exhibition/client/src/components/iprexhibition.js:133 | a `0x`/`0X` literal with valid digits is truthy exactly when one of its digits, letters a-f and A-F included, is not zero |
| Text.LetterDigitsAreTruthy | Exhibition/client/src/components/iprexhibition.js:133 | `Number("0xff")` is truthy |
| Text.ZeroHexIsFalsy | Exhibition/client/src/components/iprexhibition.js:133 | `Number("0x00")` is 0 and falsy |
| Text.NumberOfDecimalString | Exhibition/client/src/components/iprexhibition.js:133 | `Number(String(n))` is truthy exactly when `n > 0` |
| Text.ToLower | Admin/client/src/components/Dashboard.js:22 | ASCII case folding as `toLowerCase` does it: each of A-Z becomes its lower-case letter and every other character is kept, so the length is kept |
| Text.ToLowerIdempotent | Admin/client/src/components/Dashboard.js:22 | lower-casing twice is lower-casing once |
| Text.ContainsEmpty | Admin/client/src/components/visitorsDetailpage.js:122 | every string `includes("")` |
| Text.Join | Admin/client/src/components/visitorsDetailpage.js:46 | `join` of no items is empty, and of one item is that item |
| Text.LastSegment | Scienceday/client/src/components/mainexhibitionpage.js:819 | `split(sep).pop()` is the suffix after the last separator and contains no separator |
| Lists.Filter | Admin/client/src/components/visitorsDetailpage.js:120 | `filter` never lengthens a list |
| Lists.FilterKeepsCopies | Admin/client/src/components/visitorsDetailpage.js:120 | `filter` keeps every copy of a value that passes the test and no copy of one that fails |
| Lists.FilterMembership | Admin/client/src/components/visitorsDetailpage.js:120 | an element is in the filtered list exactly when it is in the list and passes the test |
| Lists.FilterAll | Admin/client/src/components/Dashboard.js:17-18 | filtering with a test every element passes gives the list back |
| Lists.FilterSameTest | Admin/client/src/components/Dashboard.js:21-23 | tests that agree on every element give the same filtered list |
| Lists.SubsequenceOfItself | Admin/client/src/components/Dashboard.js:17-18 | every list is an order-preserving subsequence of itself |
| Lists.FilterIsSubsequence | Admin/client/src/components/visitorsDetailpage.js:120 | `filter` keeps the relative order of what it keeps |
| Lists.RemoveAll | Admin/client/src/components/feedbackdetailspage.js:45 | `filter(y => y !== x)` removes every `x` and keeps every copy of every other element, in order |
| Lists.RemoveAllNoDuplicates | Admin/client/src/components/feedbackdetailspage.js:45 | removal keeps a duplicate-free selection duplicate-free |
| Lists.RemoveAbsent | Admin/client/src/components/feedbackdetailspage.js:45 | removing an absent value changes nothing |
| Lists.Toggle | Admin/client/src/components/feedbackdetailspage.js:43-47 | toggling `x` flips whether `x` is selected and leaves every other value's membership alone; an absent `x` is appended, and a present one is removed with every copy of every other value kept in order |
| Lists.ToggleTwiceSameMembers | Admin/client/src/components/feedbackdetailspage.js:43-47 | toggling twice restores which values are selected |
| Lists.RemoveAllAppended | Admin/client/src/components/feedbackdetailspage.js:43-47 | appending an absent value and filtering it out gives back the very same list |
| Lists.ToggleTwiceAbsent | Admin/client/src/components/feedbackdetailspage.js:43-47 | toggling in an absent value and out again gives back the very same list |
| Lists.FilterAppend | Admin/client/src/components/visitorsDetailpage.js:120 | filtering distributes over concatenation |
| Lists.ToggleNoDuplicates | Admin/client/src/components/feedbackdetailspage.js:43-47 | a selection built only by toggles never holds an id twice |
| ExhibitionForm.ClearFieldsSpec | Exhibition/client/src/components/iprexhibition.js:72-74 | the inner `forEach` adds exactly the step's field ids, each set to `''`, and keeps every other key |
| ExhibitionForm.ClearStepsSpec | Exhibition/client/src/components/iprexhibition.js:71-76 | the `reduce` over steps adds exactly the ids of every step's fields, each `''` |
| ExhibitionForm.InitialStateShape | Exhibition/client/src/components/iprexhibition.js:71-76 | `initialState` has one key per field id of the questionnaire and no other, all empty |
| ExhibitionForm.InitialState | Exhibition/client/src/components/iprexhibition.js:71-76 | `initialState`: every step's fields cleared into an empty map, in step order |
| ExhibitionForm.FormReducer | Exhibition/client/src/components/iprexhibition.js:78-87 | `SET_FIELD` sets that one key and keeps every other; `RESET_FORM` yields `initialState`; any other action keeps the state |
| ExhibitionForm.ResetForgetsState | Exhibition/client/src/components/iprexhibition.js:82-83 | a reset after any edits yields the same state as a reset from any other state |
| ExhibitionForm.FieldError | Exhibition/client/src/components/iprexhibition.js:130-136 | a required blank field gets "… is required"; otherwise one of the five numeric ids whose `Number` is falsy gets "… must be a valid number"; otherwise no error, both ways |
| ExhibitionForm.StepErrorsStep | Exhibition/client/src/components/iprexhibition.js:129-137 | each `forEach` iteration adds the field's own error, when it has one, to the map built so far |
| ExhibitionForm.ErrorKeysAreStepFields | Exhibition/client/src/components/iprexhibition.js:124-141 | every key of the error map is the id of a field of the current step |
| ExhibitionForm.ErrorOfField | Exhibition/client/src/components/iprexhibition.js:124-141 | with distinct ids, a field has an entry in the error map exactly when it fails, and the entry is its own message |
| ExhibitionForm.CheckFields | Exhibition/client/src/components/iprexhibition.js:126-140 | the `forEach` loop builds exactly the step's error map, one field at a time, and `isValid` stays true exactly when that map is empty |
| ExhibitionForm.RequiredBlankMessage | Exhibition/client/src/components/iprexhibition.js:130-131 | a required blank field is reported as "… is required" |
| ExhibitionForm.NumericMessage | Exhibition/client/src/components/iprexhibition.js:133-134 | a non-blank numeric field that is not a non-zero number is reported as "… must be a valid number" |
| ExhibitionForm.EmptyNumericFieldFails | Exhibition/client/src/components/iprexhibition.js:133-134 | an optional numeric field left empty fails, since `Number('')` is 0: it gets "… must be a valid number" |
| ExhibitionForm.NumTablesField | Exhibition/client/src/components/iprexhibition.js:19 | the eighth field of the first step is the optional number input `numTables`, one of the numeric ids |
| ExhibitionForm.StepsHaveDistinctIds | Exhibition/client/src/components/iprexhibition.js:8-69 | no step repeats a field id |
| ExhibitionForm.StepsShape | Exhibition/client/src/components/iprexhibition.js:8-69 | the questionnaire has six steps from "Hall for Exhibition" to "Quiz Programme", with ten fields on the first and four on each other |
| ExhibitionForm.HallForExhibitionDistinct | Exhibition/client/src/components/iprexhibition.js:10-23 | the first step's field ids are distinct |
| ExhibitionForm.EmptyNumTablesBlocksFirstStep | Exhibition/client/src/components/iprexhibition.js:19 | the optional `numTables` field, left empty, still blocks the first step with "must be a valid number" |
| ExhibitionForm.Wizard.constructor | Exhibition/client/src/components/iprexhibition.js:118-122 | the wizard starts on step 0 with `initialState`, no errors and not submitting |
| ExhibitionForm.Wizard.Dispatch | Exhibition/client/src/components/iprexhibition.js:78-87 | the form state becomes the reducer's result |
| ExhibitionForm.Wizard.HandleInputChange | Exhibition/client/src/components/iprexhibition.js:153-155 | only the edited key changes, to the typed value |
| ExhibitionForm.Wizard.ValidateStep | Exhibition/client/src/components/iprexhibition.js:124-141 | errors become the current step's error map; the step is valid exactly when that map is empty |
| ExhibitionForm.Wizard.HandleNextStep | Exhibition/client/src/components/iprexhibition.js:143-147 | the step advances by one exactly when validation passes |
| ExhibitionForm.Wizard.HandlePreviousStep | Exhibition/client/src/components/iprexhibition.js:149-151 | the step goes back by one |
| ExhibitionForm.Wizard.HandleSubmit | Exhibition/client/src/components/iprexhibition.js:157-187 | posts the whole form only when the step validates; on success the form resets to `initialState` and step 0; otherwise the form and the step are kept; the submitting flag ends false after a post |
| VisitorForm.InitialData | Visitor/client/src/components/VisitorsForm.js:35-51 | the form starts with every text field `''` and both lists `[]` |
| VisitorForm.Change | Visitor/client/src/components/VisitorsForm.js:56-66 | a text input sets that one field; a checked box appends its value to that list; an unchecked box removes every copy of its value and keeps every copy of the rest, in order |
| VisitorForm.UncheckKeepsDuplicates | Visitor/client/src/components/VisitorsForm.js:56-66 | a campus ticked twice (the boxes at lines 398-405 carry no `checked` prop and remount unticked) keeps both copies when another campus is cleared |
| VisitorForm.CheckThenUncheck | Visitor/client/src/components/VisitorsForm.js:61-64 | checking and then unchecking an unselected box gives back the very same form |
| VisitorForm.EmailIsNotBlank | Visitor/client/src/components/VisitorsForm.js:91 | a value matching `\S+@\S+\.\S+` is never blank |
| VisitorForm.EmailNeedsAt | Visitor/client/src/components/VisitorsForm.js:91 | a value with no `@` never passes the email pattern |
| VisitorForm.EmailExample | Visitor/client/src/components/VisitorsForm.js:91 | an ordinary address passes the email pattern |
| VisitorForm.TenDigitsNotBlank | Visitor/client/src/components/VisitorsForm.js:93 | a value matching `^\d{10}$` is never blank |
| VisitorForm.TenDigits | Visitor/client/src/components/VisitorsForm.js:93 | `/^\d{10}$/`: exactly ten ASCII digits |
| VisitorForm.EmailLike | Visitor/client/src/components/VisitorsForm.js:91 | `/\S+@\S+\.\S+/` occurs somewhere in the value, which therefore has at least five characters |
| VisitorForm.CountAsWrittenAcceptsNaN | Visitor/client/src/components/VisitorsForm.js:82-85 | as written, ".5" passes the head-count rule although `parseInt` gives `NaN` |
| VisitorForm.CountRejectedAsWritten | Visitor/client/src/components/VisitorsForm.js:82-85 | the head-count rule as written: blank, or `parseInt` gives a number at most 0 |
| VisitorForm.CountRejected | Visitor/client/src/components/VisitorsForm.js:82-85 | corrected head-count rule: a value passes exactly when `parseInt` yields a positive number |
| VisitorForm.DecimalCountAccepted | Visitor/client/src/components/VisitorsForm.js:82-85 | every positive whole number typed in decimal passes |
| VisitorForm.Flag | Visitor/client/src/components/VisitorsForm.js:74-102 | the error map stays empty exactly when it was empty and the check did not fail |
| VisitorForm.StepErrors | Visitor/client/src/components/VisitorsForm.js:70-106 | a step reports errors only under the names of its own inputs; step 3 applies the head-count rule as written |
| VisitorForm.StepErrorsEmptyIff | Visitor/client/src/components/VisitorsForm.js:70-109 | `validateStep` returns true exactly when every rule of the current step holds, as written; steps 1 and 6 always pass |
| VisitorForm.InstitutionStepPasses | Visitor/client/src/components/VisitorsForm.js:73-80 | step 2 has no errors exactly when the institution and branch are not blank and the semester is all digits |
| VisitorForm.HeadCountStepPasses | Visitor/client/src/components/VisitorsForm.js:81-86 | step 3 has no errors exactly when neither head count is blank and neither parses to a number at most 0; a count that parses to `NaN` passes |
| VisitorForm.ContactStepPasses | Visitor/client/src/components/VisitorsForm.js:87-95 | step 4 has no errors exactly when name and position are not blank, the email has the `\S+@\S+\.\S+` shape and the mobile is ten digits |
| VisitorForm.ScheduleStepPasses | Visitor/client/src/components/VisitorsForm.js:96-103 | step 5 has no errors exactly when a campus is chosen and the date and time are set |
| VisitorForm.PayloadNumbersAsWritten | Visitor/client/src/components/VisitorsForm.js:127-132 | once steps 2 and 3 validate, the posted semester is a number at least 0, and each head count is a positive number or `null` |
| VisitorForm.NaNCountPostedAsNull | Visitor/client/src/components/VisitorsForm.js:82-85 | as written, head counts of ".5" pass step 3 and both are posted as `null` |
| VisitorForm.CorrectedHeadCountErrors | Visitor/client/src/components/VisitorsForm.js:82-85 | corrected step 3: each head count is checked with the corrected rule |
| VisitorForm.CountRuleStricter | Visitor/client/src/components/VisitorsForm.js:82-85 | the corrected rule rejects every count the written one rejects, and otherwise only counts that parse to `NaN` |
| VisitorForm.CorrectionOnlyRejectsNaN | Visitor/client/src/components/VisitorsForm.js:82-85 | the corrected step 3 passes only where the written one passes, and they differ only on a `NaN` count |
| VisitorForm.CorrectedPayloadNumbersPresent | Visitor/client/src/components/VisitorsForm.js:127-132 | corrected: once steps 2 and 3 validate, the semester is a number at least 0 and both head counts are positive numbers, never `null` |
| VisitorForm.MakePayload | Visitor/client/src/components/VisitorsForm.js:125-132 | the posted body keeps every input but the three numeric ones as typed, and carries `parseInt` of the semester and both head counts |
| VisitorForm.Wizard.constructor | Visitor/client/src/components/VisitorsForm.js:34-53 | the form starts on step 1 with every text empty, both lists empty and no errors |
| VisitorForm.Wizard.HandleChange | Visitor/client/src/components/VisitorsForm.js:56-68 | the data becomes the changed form and that input's error is cleared to `''` |
| VisitorForm.Wizard.ValidateStep | Visitor/client/src/components/VisitorsForm.js:70-109 | errors become the step's error map, with the rules as written; valid exactly when it is empty |
| VisitorForm.Wizard.HandleNext | Visitor/client/src/components/VisitorsForm.js:111-115 | the step advances by one exactly when its rules hold as written (a `NaN` head count included); the data is unchanged |
| VisitorForm.Wizard.HandleBack | Visitor/client/src/components/VisitorsForm.js:117-119 | the step goes back by one |
| VisitorForm.Wizard.HandleSubmit | Visitor/client/src/components/VisitorsForm.js:120-165 | posts the form with the three counts parsed only when step 5 validates; on success the form and step reset; otherwise both are kept |
| FeedbackForm.InitialData | Feedback/client/src/components/feedback.js:8-34 | every text field, list and rating starts empty |
| FeedbackForm.Change | Feedback/client/src/components/feedback.js:36-56 | a checkbox changes only its list (append on check; on uncheck remove every copy and keep every copy of the rest); an input named after a rating changes only that rating; any other input changes only its text field |
| FeedbackForm.CheckThenUncheck | Feedback/client/src/components/feedback.js:38-44 | checking and unchecking an unselected box gives back the very same form |
| FeedbackForm.AtMostOneSelected | Feedback/client/src/components/feedback.js:246-257 | at most one radio button of a rating shows as checked |
| FeedbackForm.ClickSelectsExactly | Feedback/client/src/components/feedback.js:246-257 | after clicking value `v`, the radio for `v` and no other shows as checked |
| FeedbackForm.UnansweredShowsNothing | Feedback/client/src/components/feedback.js:246-257 | in a fresh form no radio shows as checked |
| FeedbackForm.FeedbackBodyOf | Feedback/client/src/components/feedback.js:63-83 | the feedback request carries exactly the ten text fields with the form's values, both lists, and `parseInt` of the two counts |
| FeedbackForm.TypedCountsAreSent | Feedback/client/src/components/feedback.js:75-76 | counts typed as whole numbers are sent as those numbers |
| FeedbackForm.BlankCountIsNotANumber | Feedback/client/src/components/feedback.js:75 | a blank student count is sent as `NaN` |
| FeedbackForm.RatingsBodyOf | Feedback/client/src/components/feedback.js:94-111 | the ratings request refers to the created feedback's id and carries one score per rating question |
| FeedbackForm.ClickedRatingIsSent | Feedback/client/src/components/feedback.js:101-109 | a rating answered by clicking `v` is posted as the number `v` |
| FeedbackForm.UnansweredRatingIsNotANumber | Feedback/client/src/components/feedback.js:101-109 | an unanswered rating is posted as `NaN` |
| FeedbackForm.FeedbackPage.constructor | Feedback/client/src/components/feedback.js:8-34 | the form starts with every text, list and rating empty |
| FeedbackForm.FeedbackPage.HandleChange | Feedback/client/src/components/feedback.js:36-56 | the form becomes the changed form |
| FeedbackForm.FeedbackPage.HandleSubmit | Feedback/client/src/components/feedback.js:59-153 | posts the feedback body; posts ratings exactly when the feedback post succeeds, with its id; resets the form only when both succeed |
| ScienceDay.KeyInjective | Scienceday/client/src/components/mainexhibitionpage.js:813 | different step/field pairs have different `step{s}_field{i}` keys |
| ScienceDay.Key | Scienceday/client/src/components/mainexhibitionpage.js:813 | a form-data key starts with `step` and is at least twelve characters long |
| ScienceDay.KeyAfterPrefix | Scienceday/client/src/components/mainexhibitionpage.js:813 | after the `step` prefix a key is the step number, `_field`, then the field number |
| ScienceDay.Extension | Scienceday/client/src/components/mainexhibitionpage.js:819 | the lower-cased last extension contains no dot |
| ScienceDay.ClassifyFile | Scienceday/client/src/components/mainexhibitionpage.js:817-832 | a file is stored as video only for a listed extension within 10 MB, and as PDF only for `pdf`; every such file is accepted, anything else is refused |
| ScienceDay.StoredValue | Scienceday/client/src/components/mainexhibitionpage.js:812-836 | a text or checkbox event stores its value; a file event stores nothing exactly when the file is refused |
| ScienceDay.UpperCaseVideoAccepted | Scienceday/client/src/components/mainexhibitionpage.js:819-826 | the extension check ignores case: `Demo.MP4` under 10 MB is a video |
| ScienceDay.LastExtensionDecides | Scienceday/client/src/components/mainexhibitionpage.js:819-831 | only the last extension counts: `essay.pdf.zip` is refused |
| ScienceDay.Endpoint | Scienceday/client/src/components/mainexhibitionpage.js:705-718 | a competition has an endpoint exactly when it is in the endpoint table |
| ScienceDay.EndpointsCoverMenu | Scienceday/client/src/components/mainexhibitionpage.js:705-718 | the endpoint table and the competition menu name the same competitions |
| ScienceDay.PlaceholderHasNoEndpoint | Scienceday/client/src/components/mainexhibitionpage.js:940-944 | the empty placeholder competition has no endpoint |
| ScienceDay.MissingFields | Scienceday/client/src/components/mainexhibitionpage.js:1007-1008 | the missing list is exactly the required names that are absent or falsy, in order |
| ScienceDay.NothingMissingIff | Scienceday/client/src/components/mainexhibitionpage.js:1007-1013 | nothing is missing exactly when all five required details are present |
| ScienceDay.SampleEntryPassesCheck | Scienceday/client/src/components/mainexhibitionpage.js:1007-1013 | an entry stored under the detail names passes the missing-fields check |
| ScienceDay.SaveRequest | Scienceday/client/src/components/mainexhibitionpage.js:1001-1026 | a request is made exactly when there is a current competition with nothing missing and an endpoint, only for a competition whose details were entered; an essay's body is the mapping as written, from `field0` … `field5` |
| ScienceDay.SavedEssayLosesEntryAsWritten | Scienceday/client/src/components/mainexhibitionpage.js:1001-1026 | as written, saving an essay whose details were entered under the field names posts no participant name and accommodation false |
| ScienceDay.UnnamedEntryNeverPasses | Scienceday/client/src/components/mainexhibitionpage.js:350-415 | the English and Hindi essay inputs have no `name`, so their details sit under "undefined" and always miss required fields |
| ScienceDay.MappedDetailsAsWritten | Scienceday/client/src/components/mainexhibitionpage.js:1016-1023 | the mapping as written: only essay keys, the participant's name present exactly when `field0` is, and accommodation true exactly when `field3` is "Yes" |
| ScienceDay.CompetitionRequest | Scienceday/client/src/components/mainexhibitionpage.js:940-986 | a request exists exactly for a competition with an endpoint; essays send exactly the six essay keys that are present, with their values; other competitions send no body |
| ScienceDay.EnteredDetailsLostAsWritten | Scienceday/client/src/components/mainexhibitionpage.js:1016-1023 | as written, any entry stored under the detail names loses the participant's name from the mapped body and sends `accommodationRequired` as false |
| ScienceDay.MappedDetails | Scienceday/client/src/components/mainexhibitionpage.js:1016-1023 | corrected: each essay key carries the entered value, and `accommodationRequired` is true exactly for "Yes" |
| ScienceDay.SavedEssayCarriesEntry | Scienceday/client/src/components/mainexhibitionpage.js:1001-1026 | corrected: a complete essay entry is posted with the entered name, gender, class and declaration, and with accommodation true exactly for "Yes" |
| ScienceDay.SubmitCompetitions | Scienceday/client/src/components/mainexhibitionpage.js:1052-1065 | the loop posts the filled competitions in order, records each id, and stops at the first failure; all succeeded exactly when every competition was recorded |
| ScienceDay.Registration.constructor | Scienceday/client/src/components/mainexhibitionpage.js:722-747 | registration starts on step 0 with the school and teacher inputs empty, no ids, no competitions selected, entered or filled, and no current competition |
| ScienceDay.Registration.HandleInputChange | Scienceday/client/src/components/mainexhibitionpage.js:812-836 | a refused file leaves the form alone; anything else is stored under the step/field key |
| ScienceDay.Registration.HandleSchoolSubmit | Scienceday/client/src/components/mainexhibitionpage.js:843-869 | posts the seven school fields; on success stores the school id and moves to step 1, otherwise stays |
| ScienceDay.Registration.HandleTeacherSubmit | Scienceday/client/src/components/mainexhibitionpage.js:871-896 | posts the teacher with accommodation true exactly for "Yes"; on success stores the id and moves to step 2, otherwise stays |
| ScienceDay.Registration.HandleCompetitionSelection | Scienceday/client/src/components/mainexhibitionpage.js:898-938 | a new competition is created and made current only if the server accepts it; an already selected one becomes current without a request |
| ScienceDay.Registration.HandleCompetitionDetailChange | Scienceday/client/src/components/mainexhibitionpage.js:989-997 | sets one detail of the current competition and keeps everything else |
| ScienceDay.Registration.HandleSaveAndContinue | Scienceday/client/src/components/mainexhibitionpage.js:1001-1038 | posts the details mapped as written, only for a current competition with nothing missing; on success it is recorded as filled and the current competition is cleared |
| ScienceDay.Registration.RecordFilled | Scienceday/client/src/components/mainexhibitionpage.js:1028-1029 | the current competition is appended to the filled list and the current competition is cleared |
| ScienceDay.Registration.HandleFinalSubmit | Scienceday/client/src/components/mainexhibitionpage.js:1042-1097 | with nothing filled nothing is posted; each competition post is that competition's request with its raw details; posting stops at the first refused or unknown competition; the final post happens exactly when every post succeeded (all competitions being known) and lists them with their ids; success resets the filled list |
| AdminTables.ValueText | Admin/client/src/components/visitorsDetailpage.js:122 | `toString()` of a text is itself, and of a one-item array is that item |
| AdminTables.Truthy | Admin/client/src/components/exhibitondetailpage.js:215 | JavaScript truthiness of a field: a non-empty text, a non-zero number, true, or any array |
| AdminTables.Ids | Admin/client/src/components/feedbackdetailspage.js:246 | `map(item => item.id)` keeps length and order |
| AdminTables.DeleteSelected | Admin/client/src/components/feedbackdetailspage.js:55-63 | exactly the records whose id is not selected remain, each as often as before, in order |
| AdminTables.DeleteNothingSelected | Admin/client/src/components/feedbackdetailspage.js:55-58 | with nothing selected, delete keeps every record |
| AdminTables.DeleteById | Admin/client/src/components/visitorsDetailpage.js:115-117 | exactly the records with another id remain, each as often as before, in order |
| AdminTables.SelectAll | Admin/client/src/components/feedbackdetailspage.js:242-248 | the header checkbox clears a selection as long as the table, and otherwise selects every id |
| AdminTables.SelectAllSelectsEveryRecord | Admin/client/src/components/feedbackdetailspage.js:242-248 | after select-all every record is selected and the header shows checked |
| AdminTables.SelectAllTwiceClears | Admin/client/src/components/feedbackdetailspage.js:242-248 | clicking the header twice leaves nothing selected |
| AdminTables.CellValue | Admin/client/src/components/visitorsDetailpage.js:36-52 | a cell copies its field, or joins an array field with ", " |
| AdminTables.Headers | Admin/client/src/components/feedbackdetailspage.js:66-81 | the headers are the columns' headers in order |
| AdminTables.RowHeaders | Admin/client/src/components/feedbackdetailspage.js:66-81 | a row's keys are its cells' headers in order |
| AdminTables.ExportRow | Admin/client/src/components/feedbackdetailspage.js:66-81 | an export row has the columns' headers in order, each with its cell value |
| AdminTables.ExportRows | Admin/client/src/components/feedbackdetailspage.js:66 | one row per record, in order |
| AdminTables.Lookup | Admin/client/src/components/feedbackdetailspage.js:66-81 | a header is found exactly when the row has it |
| AdminTables.LookupAt | Admin/client/src/components/feedbackdetailspage.js:66-81 | a header's first cell is the one found |
| AdminTables.ExportedCell | Admin/client/src/components/feedbackdetailspage.js:66-81 | a column whose header no earlier column uses is found in the row under that header, holding its cell value |
| AdminTables.ExcelOrCsv | Admin/client/src/components/feedbackdetailspage.js:83-87 | "excel" goes to the Excel exporter and every other format to CSV |
| AdminTables.OccursInConcat | Admin/client/src/components/visitorsDetailpage.js:46 | a string found in one part of a concatenation is found in the whole |
| AdminTables.JoinedItemsAppear | Admin/client/src/components/visitorsDetailpage.js:46 | every item of an array appears in its `join` |
| AdminTables.JoinedCellNamesEveryItem | Admin/client/src/components/visitorsDetailpage.js:36-52 | when no earlier column has the same header, a joined column's exported cell is a text naming every item of the array |
| FeedbackAdmin.FeedbackHeadersDistinct | Admin/client/src/components/feedbackdetailspage.js:66-81 | the feedback export repeats no header |
| FeedbackAdmin.RatingHeadersDistinct | Admin/client/src/components/feedbackdetailspage.js:91-101 | the ratings export repeats no header |
| FeedbackAdmin.FeedbackExport | Admin/client/src/components/feedbackdetailspage.js:65-88 | one row per feedback, in order, to file "feedbacks", Excel exactly for "excel" |
| FeedbackAdmin.RatingExport | Admin/client/src/components/feedbackdetailspage.js:90-108 | one row per rating, in order, to file "ratings", Excel exactly for "excel" |
| FeedbackAdmin.FeedbackRowEmail | Admin/client/src/components/feedbackdetailspage.js:71 | the "Email" cell of an exported feedback is its `staffEmail` |
| FeedbackAdmin.EmailColumn | Admin/client/src/components/feedbackdetailspage.js:67-71 | the fifth export column copies `staffEmail` under "Email", a header no earlier column uses |
| FeedbackAdmin.FormatDate | Admin/client/src/components/feedbackdetailspage.js:38-41 | a falsy date shows "N/A"; any other is shown as a date built from that text |
| FeedbackAdmin.DeleteButtonAsWritten | Admin/client/src/components/feedbackdetailspage.js:318-320 | as written, no tab's delete button deletes ratings |
| FeedbackAdmin.RatingsCannotBeDeletedAsWritten | Admin/client/src/components/feedbackdetailspage.js:318-320 | as written, selected ratings alone show no button, and with feedbacks selected the ratings tab's button deletes feedbacks |
| FeedbackAdmin.DeleteButtonOf | Admin/client/src/components/feedbackdetailspage.js:225-227 | corrected: each tab shows its button exactly when something in that tab is selected, and it deletes that tab's records |
| FeedbackAdmin.FeedbackTabUnchanged | Admin/client/src/components/feedbackdetailspage.js:225-227 | the correction leaves the feedback tab as written |
| FeedbackAdmin.DetailsPage.constructor | Admin/client/src/components/feedbackdetailspage.js:9-16 | after the fetch the tables hold what was fetched and nothing is selected |
| FeedbackAdmin.DetailsPage.ToggleFeedback | Admin/client/src/components/feedbackdetailspage.js:43-47 | the feedback selection is toggled |
| FeedbackAdmin.DetailsPage.ToggleRating | Admin/client/src/components/feedbackdetailspage.js:49-53 | the ratings selection is toggled |
| FeedbackAdmin.DetailsPage.DeleteSelectedFeedbacks | Admin/client/src/components/feedbackdetailspage.js:55-58 | the selected feedbacks are dropped and the selection cleared |
| FeedbackAdmin.DetailsPage.DeleteSelectedRatings | Admin/client/src/components/feedbackdetailspage.js:60-63 | the selected ratings are dropped and the selection cleared |
| FeedbackAdmin.DetailsPage.PressDelete | Admin/client/src/components/feedbackdetailspage.js:225-320 | as drawn, either tab's button shows only while feedbacks are selected and deletes those feedbacks; the ratings are left alone |
| FeedbackAdmin.DetailsPage.PressDeleteCorrected | Admin/client/src/components/feedbackdetailspage.js:318-320 | corrected: a visible delete button drops the selected records of its own tab and leaves the other tab alone |
| FeedbackAdmin.DetailsPage.SelectAllFeedbacks | Admin/client/src/components/feedbackdetailspage.js:242-248 | the feedback header checkbox, as select-all |
| FeedbackAdmin.DetailsPage.SelectAllRatings | Admin/client/src/components/feedbackdetailspage.js:335-341 | the ratings header checkbox, as select-all |
| VisitorAdmin.VisitorHeadersDistinct | Admin/client/src/components/visitorsDetailpage.js:36-52 | the visitor export repeats no header |
| VisitorAdmin.VisitorExport | Admin/client/src/components/visitorsDetailpage.js:55-64 | "excel" and "csv" export one row per booking to "visitors_data"; any other format exports nothing |
| VisitorAdmin.CampusCellNamesEveryCampus | Admin/client/src/components/visitorsDetailpage.js:46 | the exported "Campus" cell names every campus of the booking |
| VisitorAdmin.CampusColumn | Admin/client/src/components/visitorsDetailpage.js:37-46 | the tenth export column joins `campus` under "Campus", a header no earlier column uses |
| VisitorAdmin.Filtered | Admin/client/src/components/visitorsDetailpage.js:119-125 | exactly the bookings with a value containing the term, ignoring case, remain, each as often as before, in order |
| VisitorAdmin.EmptyTermShowsAll | Admin/client/src/components/visitorsDetailpage.js:119-125 | an empty search shows every booking |
| VisitorAdmin.SearchIgnoresCase | Admin/client/src/components/visitorsDetailpage.js:122 | a term and its lower-cased form show the same bookings |
| VisitorAdmin.ToggleExpand | Admin/client/src/components/visitorsDetailpage.js:66-68 | clicking the expanded row collapses it; clicking any other row expands that row |
| VisitorAdmin.ExpandTwice | Admin/client/src/components/visitorsDetailpage.js:66-68 | clicking a row twice restores the expansion |
| VisitorAdmin.VisitorsPage.constructor | Admin/client/src/components/visitorsDetailpage.js:18-22 | after the fetch the table holds what was fetched, nothing is selected and no row is expanded |
| VisitorAdmin.VisitorsPage.HandleItemSelection | Admin/client/src/components/visitorsDetailpage.js:103-107 | the selection is toggled |
| VisitorAdmin.VisitorsPage.HandleDeleteSelected | Admin/client/src/components/visitorsDetailpage.js:109-112 | the selected bookings are dropped and the selection cleared |
| VisitorAdmin.VisitorsPage.HandleDelete | Admin/client/src/components/visitorsDetailpage.js:115-117 | the bookings with that id are dropped |
| VisitorAdmin.VisitorsPage.ToggleExpandRow | Admin/client/src/components/visitorsDetailpage.js:66-68 | the expanded row is toggled |
| ExhibitionAdmin.ExhibitionExport | Admin/client/src/components/exhibitondetailpage.js:42-81 | one row per questionnaire, in order, to "exhibitions", Excel exactly for "excel" |
| ExhibitionAdmin.YesNo | Admin/client/src/components/exhibitondetailpage.js:215 | a cell reads "Yes" exactly when the value is truthy, and "No" otherwise |
| ExhibitionAdmin.TextAnswerYesIffNonEmpty | Admin/client/src/components/exhibitondetailpage.js:277-280 | a text answer reads "Yes" exactly when non-empty, so "No" and "0" read "Yes"; 0 and null read "No" |
| ExhibitionAdmin.YesNoCells | Admin/client/src/components/exhibitondetailpage.js:277-280 | each yes/no cell of a questionnaire reflects its own field's truthiness |
| ExhibitionAdmin.Displayed | Admin/client/src/components/exhibitondetailpage.js:211 | the tables draw `exhibitions` itself, whatever the search term |
| ExhibitionAdmin.ExhibitionsPage.constructor | Admin/client/src/components/exhibitondetailpage.js:9-13 | after the fetch the table holds what was fetched, nothing is selected and the search box is empty |
| ExhibitionAdmin.ExhibitionsPage.HandleExhibitionSelection | Admin/client/src/components/exhibitondetailpage.js:31-35 | the selection is toggled |
| ExhibitionAdmin.ExhibitionsPage.HandleDeleteSelectedExhibitions | Admin/client/src/components/exhibitondetailpage.js:37-40 | the selected questionnaires are dropped and the selection cleared |
| ExhibitionAdmin.ExhibitionsPage.SetSearchTerm | Admin/client/src/components/exhibitondetailpage.js:119-120 | only the stored term changes, and the rows drawn stay the same |
| Calendar.DaysInMonth | Admin/client/src/components/Calendar.js:14 | a month has 28 to 31 days, and 29 exactly for February of a leap year |
| Calendar.Weekday | Admin/client/src/components/Calendar.js:13 | `getDay()` is a weekday 0..6 |
| Calendar.FirstWeekday | Admin/client/src/components/Calendar.js:13 | the first of the month falls on a weekday 0..6 |
| Calendar.FirstOf2024IsMonday | Admin/client/src/components/Calendar.js:13 | the weekday formula puts 1 January 2024 on a Monday |
| Calendar.FebruaryStep | Admin/client/src/components/Calendar.js:13-14 | the weekday formula's count grows from February to March by exactly the extra days of a leap February |
| Calendar.WeekBaseStep | Admin/client/src/components/Calendar.js:13-14 | from each month to the next the formula's count grows by the month's length less whole weeks |
| Calendar.NextMonthFollows | Admin/client/src/components/Calendar.js:13-14 | the next month starts `DaysInMonth` days after this one, December running into January |
| Calendar.DayInItsWeekdayColumn | Admin/client/src/components/Calendar.js:17-21 | day `d` lands in its own weekday's column of the grid |
| Calendar.Pad2Injective | Admin/client/src/components/Calendar.js:23 | two-digit padding is injective |
| Calendar.DateKey | Admin/client/src/components/Calendar.js:23 | a key has the shape `YYYY-MM-DD` |
| Calendar.DateKeyInjective | Admin/client/src/components/Calendar.js:23 | different days of a month have different keys |
| Calendar.DayCell | Admin/client/src/components/Calendar.js:22-24 | a day's cell carries its number and key, and is marked exactly when the key is selected |
| Calendar.RenderCalendar | Admin/client/src/components/Calendar.js:10-38 | the grid has a blank for each weekday before the first, then every day of the month in order, each marked exactly when selected |
| Calendar.ToggleDate | Admin/client/src/components/Calendar.js:40-46 | a click flips the clicked key's membership and no other's |
| Calendar.ClickFlipsOnlyThatDay | Admin/client/src/components/Calendar.js:40-46 | clicking a day flips that day's mark and no other day's |
| Calendar.ClickTwiceRestoresMarks | Admin/client/src/components/Calendar.js:40-46 | clicking a day twice restores every mark |
| Dashboard.SearchForms | Admin/client/src/components/Dashboard.js:16-25 | an empty query shows every form; any other keeps exactly the forms whose title contains it, ignoring case, each as often as before, in order |
| Dashboard.SearchIgnoresCase | Admin/client/src/components/Dashboard.js:22 | a query and its lower-cased form find the same forms |
| Dashboard.TitleFindsItsForm | Admin/client/src/components/Dashboard.js:21-23 | searching for a form's own title finds it |
| Dashboard.DashboardPage.constructor | Admin/client/src/components/Dashboard.js:6-9 | the first render shows no cards and is loading |
| Dashboard.DashboardPage.FormsChanged | Admin/client/src/components/Dashboard.js:11-14 | a new forms prop shows every form and ends loading |
| Dashboard.DashboardPage.HandleSearch | Admin/client/src/components/Dashboard.js:16-25 | the cards drawn become the search result |

## Left out

- Network transport: `fetch`/`axios`, JSON encoding, response bodies other than the created
  id, and the backend servers. A request is a returned body plus an outcome parameter.
- Rendering, toasts, alerts, console logging, `navigate`, progress bars, and the
  `CompetitionFields` component. They produce no state the model reads.
- Browser-side form constraints: `required`, `type="number"`, `accept` and `disabled`
  attributes. The handlers are modelled for every input they can receive.
- The science-day `filledFields` counter. It is written by `handleInputChange` and never read.
- Concurrency: React's batching of state updates and interleaved async handlers. Each
  handler runs to completion on the state it started from.
- The bodies of `exportToExcel` and `exportToCSV`. An export is the exporter chosen, the file
  name and the rows.
- Calendar.DateKey: `toISOString()` converts local midnight to UTC. East of UTC, as in India,
  this gives the previous day's key. The model uses the local date, and is faithful only for
  years 100..9999: `new Date(year, month, day)` reads a year 0..99 as 1900 + year, which
  `Calendar.DateKey` and `Calendar.RenderCalendar` do not model.
- The `visitDate` of the feedback body: `toISOString()` of an empty date throws. This path is
  not modelled, and the date is posted as text.
- FeedbackAdmin.FormatDate: `toLocaleDateString()` depends on the locale. The cell keeps the
  raw text. The visitor export's "Visit Date" column is a plain copy for the same reason.
- JavaScript number semantics:
  - `parseInt` is modelled on whole digit runs in base 10, and in base 16 after `0x`;
  - `Number` truthiness ignores floating-point underflow and overflow, such as `1e-400`.
- VisitorAdmin.Filtered requires that no field is `null`. On a `null` field, `toString()`
  throws and the page fails to render.
- The visitor admin's `handleItemSelection` is modelled, but no control on the page calls it.
- Text.ToLower: ASCII case folding only. JavaScript `toLowerCase` also folds every other
  cased letter (É to é, Σ to σ or ς by context) and can lengthen a string (İ becomes two
  characters). Dashboard.SearchForms, Dashboard.SearchIgnoresCase, VisitorAdmin.Filtered and
  VisitorAdmin.SearchIgnoresCase inherit this restriction.
- ScienceDay.CompetitionRequest: competitions other than the three essays get no body,
  because the source has no case for them.
- The detail inputs of every competition except "Essay - Gujarati" carry no `name`. This
  includes "Essay - English" and "Essay - Hindi". Their details are all stored under the key
  "undefined", so an English or Hindi essay always misses its required fields and can never
  be saved (UnnamedEntryNeverPasses). The `CompetitionFields` component that does this
  storing is not modelled; the detail handler receives the field name as a parameter.
- The exhibition admin's `handleExhibitionSelection` is modelled, but the page renders no
  checkbox or other control that calls it.
- The exhibition admin's 30 export headers are not proved distinct. ExhibitionExport states
  each row, but no lemma looks a cell up by its header.

## Findings

| source | as written | input that shows it | evidently intended | confidence | as-written member | corrected member |
|---|---|---|---|---|---|---|
| Visitor/client/src/components/VisitorsForm.js:82-85 | a head count is rejected only when blank or when `parseInt` gives a number ≤ 0; `NaN <= 0` is false | numStudents = ".5": `parseInt` is `NaN`, the step passes and `null` is posted | reject unless `parseInt` gives a positive number | not executed | VisitorForm.NaNCountPostedAsNull | VisitorForm.CorrectedPayloadNumbersPresent |
| Scienceday/client/src/components/mainexhibitionpage.js:1007-1023 | the check reads `participantName` … `declaration`, but the body is built from `field0` … `field5`, which no input sets | "Essay - Gujarati", the one essay whose inputs are named, with all five details filled in (`SampleEntry`, see `SampleEntryPassesCheck`): it passes the check, yet the body has no participant name and `accommodationRequired` is false | build the body from the keys that were checked | not executed | ScienceDay.SavedEssayLosesEntryAsWritten | ScienceDay.SavedEssayCarriesEntry |
| Admin/client/src/components/feedbackdetailspage.js:318-320 | the ratings tab's delete button is guarded by `selectedFeedbacks` and calls `handleDeleteSelectedFeedbacks` | ratings tab, ratings [7] selected, no feedback selected: no button; with feedback [3] selected too, the button deletes feedback 3 | guard on `selectedRatings` and call `handleDeleteSelectedRatings` | not executed | FeedbackAdmin.RatingsCannotBeDeletedAsWritten | FeedbackAdmin.DeleteButtonOf |
