/**
 * The post-visit feedback form: text inputs, two checkbox groups (how the visitors heard of
 * the institute, which campuses they saw) and nine 1-5 ratings kept in a nested `ratings`
 * record. Submitting posts the feedback first and, only once that has succeeded, the ratings
 * tied to the feedback's id; the form is cleared only when both posts succeed.
 */
module FeedbackForm {
  import opened Outcomes
  import opened Text
  import Lists

  /** The form state: top-level strings, checkbox lists, and the nested rating strings. */
  datatype FeedbackData = FeedbackData(
    texts: map<string, string>,
    lists: map<string, seq<string>>,
    ratings: map<string, string>)

  /** The top-level string inputs. */
  const TextFields: set<string> := {
    "institutionName", "website", "visitDate", "staffName", "staffEmail", "staffMobile",
    "totalStudents", "accompanyingStaff", "best", "worst", "suggestions", "comments"
  }

  /** The checkbox groups. */
  const ListFields: set<string> := {"sources", "campuses"}

  /** The keys of the nested `ratings` record, one per 1-5 question. */
  const RatingKeys: set<string> := {
    "iprRating", "fciptRating", "knowledge", "explanationsIPR", "explanationsFCIPT",
    "knowledgeBefore", "knowledgeAfter", "technicalContents", "easeOfUnderstanding"
  }

  /** The top-level strings the feedback request carries as they are. */
  const PostedTexts: set<string> := {
    "institutionName", "website", "visitDate", "staffName", "staffEmail", "staffMobile",
    "best", "worst", "suggestions", "comments"
  }

  /** Every string input and every rating is empty; both checkbox groups are empty. */
  function InitialData(): (d: FeedbackData)
    ensures d.texts.Keys == TextFields && d.lists.Keys == ListFields && d.ratings.Keys == RatingKeys
    ensures forall k :: k in d.texts ==> d.texts[k] == ""
    ensures forall k :: k in d.lists ==> d.lists[k] == []
    ensures forall k :: k in d.ratings ==> d.ratings[k] == ""
  {
    FeedbackData(map k | k in TextFields :: "", map k | k in ListFields :: [], map k | k in RatingKeys :: "")
  }

  /** A top-level string input; a missing one reads as empty. */
  function Value(d: FeedbackData, name: string): string {
    if name in d.texts then d.texts[name] else ""
  }

  /** `prevData[name] || []`: a checkbox group, a missing one read as the empty list. */
  function Items(d: FeedbackData, name: string): seq<string> {
    if name in d.lists then d.lists[name] else []
  }

  /** A rating's stored string; a missing one reads as empty. */
  function Rating(d: FeedbackData, key: string): string {
    if key in d.ratings then d.ratings[key] else ""
  }

  // ---------------------------------------------------------------------------
  // handleChange
  // ---------------------------------------------------------------------------

  /** What an input event carries: a plain value (text or radio), or a checkbox value with its new state. */
  datatype Input = Plain(value: string) | Checkbox(item: string, checked: bool)

  /**
   * The form-data update of `handleChange`. A checkbox appends its value when ticked (a group
   * not yet present counts as empty) and removes every occurrence when cleared; the source
   * filters the existing array on a clear, so the group must exist then. Any other input whose
   * name is a rating key changes only that rating; every remaining input changes only its own
   * top-level value. The set of rating keys never changes.
   */
  function Change(d: FeedbackData, name: string, input: Input): (r: FeedbackData)
    requires input.Checkbox? && !input.checked ==> name in d.lists
    ensures r.ratings.Keys == d.ratings.Keys
    ensures input.Checkbox? ==>
      (name in r.lists && r.lists == d.lists[name := r.lists[name]]
       && r.texts == d.texts && r.ratings == d.ratings)
    ensures input.Checkbox? && input.checked ==> r.lists[name] == Items(d, name) + [input.item]
    ensures input.Checkbox? && !input.checked ==>
      (input.item !in r.lists[name] && Lists.IsSubsequence(r.lists[name], d.lists[name])
       && forall y :: y in d.lists[name] && y != input.item ==> y in r.lists[name])
    ensures input.Checkbox? && !input.checked ==>
      multiset(r.lists[name]) == multiset(d.lists[name])[input.item := 0]
    ensures input.Plain? && name in d.ratings ==>
      (r.ratings == d.ratings[name := input.value] && r.texts == d.texts && r.lists == d.lists)
    ensures input.Plain? && name !in d.ratings ==>
      (r.texts == d.texts[name := input.value] && r.ratings == d.ratings && r.lists == d.lists)
  {
    match input
    case Checkbox(item, checked) =>
      var items := if checked then Items(d, name) + [item] else Lists.RemoveAll(d.lists[name], item);
      d.(lists := d.lists[name := items])
    case Plain(value) =>
      if name in d.ratings then d.(ratings := d.ratings[name := value])
      else d.(texts := d.texts[name := value])
  }

  /** Ticking a box that was clear and clearing it again restores the form exactly. */
  lemma CheckThenUncheck(d: FeedbackData, name: string, item: string)
    requires name in d.lists && item !in d.lists[name]
    ensures Change(Change(d, name, Checkbox(item, true)), name, Checkbox(item, false)) == d
  {
    Lists.RemoveAllAppended(d.lists[name], item);
  }

  /** Radio option `v` of question `key` is drawn checked: `ratings[key] === v.toString()`. */
  predicate Selected(d: FeedbackData, key: string, v: nat) {
    key in d.ratings && d.ratings[key] == DecimalString(v)
  }

  /** At most one option of a question is ever drawn checked. */
  lemma AtMostOneSelected(d: FeedbackData, key: string, v: nat, w: nat)
    requires Selected(d, key, v) && Selected(d, key, w)
    ensures v == w
  {
    DecimalStringInjective(v, w);
  }

  /** Clicking option `v` of a question checks exactly that option and no other. */
  lemma ClickSelectsExactly(d: FeedbackData, key: string, v: nat, w: nat)
    requires key in d.ratings
    ensures Selected(Change(d, key, Plain(DecimalString(v))), key, w) <==> w == v
  {
    if Selected(Change(d, key, Plain(DecimalString(v))), key, w) {
      DecimalStringInjective(v, w);
    }
  }

  /** A question that has not been answered shows no option checked. */
  lemma UnansweredShowsNothing(key: string, v: nat)
    ensures !Selected(InitialData(), key, v)
  {
    if key in InitialData().ratings {
      assert DecimalString(v) != "";
    }
  }

  // ---------------------------------------------------------------------------
  // handleSubmit
  // ---------------------------------------------------------------------------

  /** The body of the feedback request; `parseInt` of the two counts (absent when `NaN`). */
  datatype FeedbackBody = FeedbackBody(
    texts: map<string, string>,
    totalStudents: Option<int>,
    accompanyingStaff: Option<int>,
    sources: seq<string>,
    campuses: seq<string>)

  /** The body of the ratings request: the feedback's id and `parseInt` of every rating. */
  datatype RatingsBody = RatingsBody(feedbackFormId: int, scores: map<string, Option<int>>)

  /**
   * The feedback request: ten strings as typed, both checkbox lists, and the two counts as
   * `parseInt` reads them.
   */
  function FeedbackBodyOf(d: FeedbackData): (b: FeedbackBody)
    ensures b.texts.Keys == PostedTexts
    ensures forall k :: k in b.texts ==> b.texts[k] == Value(d, k)
    ensures b.sources == Items(d, "sources") && b.campuses == Items(d, "campuses")
    ensures b.totalStudents == ParseInt(Value(d, "totalStudents"))
    ensures b.accompanyingStaff == ParseInt(Value(d, "accompanyingStaff"))
  {
    FeedbackBody(
      map k | k in PostedTexts :: Value(d, k),
      ParseInt(Value(d, "totalStudents")),
      ParseInt(Value(d, "accompanyingStaff")),
      Items(d, "sources"),
      Items(d, "campuses"))
  }

  /** Counts typed as whole numbers are sent as those numbers. */
  lemma TypedCountsAreSent(d: FeedbackData, students: nat, staff: nat)
    requires Value(d, "totalStudents") == DecimalString(students)
    requires Value(d, "accompanyingStaff") == DecimalString(staff)
    ensures FeedbackBodyOf(d).totalStudents == Some(students)
    ensures FeedbackBodyOf(d).accompanyingStaff == Some(staff)
  {
    ParseIntOfDecimalString(students);
    ParseIntOfDecimalString(staff);
  }

  /** A count left blank is sent as `NaN` (serialised as `null`). */
  lemma BlankCountIsNotANumber(d: FeedbackData)
    requires IsBlank(Value(d, "totalStudents"))
    ensures FeedbackBodyOf(d).totalStudents == None
  {
    BlankParsesToNothing(Value(d, "totalStudents"));
  }

  function RatingsBodyOf(d: FeedbackData, feedbackId: int): (b: RatingsBody)
    ensures b.feedbackFormId == feedbackId && b.scores.Keys == RatingKeys
  {
    RatingsBody(feedbackId, map k | k in RatingKeys :: ParseInt(Rating(d, k)))
  }

  /** A question answered by clicking option `v` is sent as the number `v`. */
  lemma ClickedRatingIsSent(d: FeedbackData, key: string, v: nat, feedbackId: int)
    requires key in RatingKeys && Rating(d, key) == DecimalString(v)
    ensures RatingsBodyOf(d, feedbackId).scores[key] == Some(v)
  {
    ParseIntOfDecimalString(v);
  }

  /** An unanswered question is sent as `NaN` (serialised as `null`), never as a number. */
  lemma UnansweredRatingIsNotANumber(d: FeedbackData, key: string, feedbackId: int)
    requires key in RatingKeys && IsBlank(Rating(d, key))
    ensures RatingsBodyOf(d, feedbackId).scores[key] == None
  {
    BlankParsesToNothing(Rating(d, key));
  }

  /** The feedback page: the form data, updated by the change and submit handlers. */
  class FeedbackPage {
    var data: FeedbackData

    /** The rating questions and both checkbox groups are always present. */
    ghost predicate Valid()
      reads this
    {
      data.ratings.Keys == RatingKeys && ListFields <= data.lists.Keys
    }

    constructor ()
      ensures Valid() && data == InitialData()
    {
      data := InitialData();
    }

    method HandleChange(name: string, input: Input)
      requires Valid()
      requires input.Checkbox? && !input.checked ==> name in data.lists
      modifies this
      ensures Valid()
      ensures data == Change(old(data), name, input)
    {
      data := Change(data, name, input);
    }

    /**
     * `handleSubmit`. The feedback request goes out (the throw of an empty visit date is not
     * modelled); the ratings request goes out only when the feedback request succeeded, and
     * carries the id it returned. The form is cleared only when the ratings request succeeded
     * as well; on any failure it is left as it was.
     */
    method HandleSubmit(feedbackOutcome: Response, ratingsAccepted: bool)
      returns (feedbackPost: FeedbackBody, ratingsPost: Option<RatingsBody>)
      requires Valid()
      modifies this
      ensures Valid()
      ensures feedbackPost == FeedbackBodyOf(old(data))
      ensures ratingsPost.Some? <==> feedbackOutcome.Ok?
      ensures ratingsPost.Some? ==> ratingsPost.value == RatingsBodyOf(old(data), feedbackOutcome.id)
      ensures data == if feedbackOutcome.Ok? && ratingsAccepted then InitialData() else old(data)
    {
      feedbackPost := FeedbackBodyOf(data);
      if feedbackOutcome.Failed? {
        ratingsPost := None;
        return;
      }
      ratingsPost := Some(RatingsBodyOf(data, feedbackOutcome.id));
      if !ratingsAccepted {
        return;
      }
      data := InitialData();
    }
  }
}
