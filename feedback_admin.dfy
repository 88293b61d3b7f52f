/**
 * The admin page listing submitted feedback forms and rating sheets, one tab each. Every tab
 * keeps its own selection of record ids, offers delete-selected, a select-all header checkbox
 * and an export to Excel or CSV.
 */
module FeedbackAdmin {
  import opened Outcomes
  import opened AdminTables
  import Lists

  /** The columns of the feedback export, in order. */
  const FeedbackColumns: seq<Column> := [
    Copy("Institution", "institutionName"), Copy("Website", "website"),
    Copy("VisitDate", "visitDate"), Copy("StaffName", "staffName"),
    Copy("Email", "staffEmail"), Copy("Mobile", "staffMobile"),
    Copy("Students", "totalStudents"), Copy("AccompanyingStaff", "accompanyingStaff"),
    Copy("Source", "sources"), Copy("Campuses", "campuses"),
    Copy("Best", "best"), Copy("Worst", "worst"),
    Copy("Suggestions", "suggestions"), Copy("Comments", "comments")
  ]

  /** The columns of the ratings export, in order. */
  const RatingColumns: seq<Column> := [
    Copy("IPRRating", "iprRating"), Copy("FCIPTRating", "fciptRating"),
    Copy("Knowledge", "knowledge"), Copy("IPRExplanations", "explanationsIPR"),
    Copy("FCIPTExplanations", "explanationsFCIPT"), Copy("KnowledgeBefore", "knowledgeBefore"),
    Copy("KnowledgeAfter", "knowledgeAfter"), Copy("TechnicalContents", "technicalContents"),
    Copy("EaseOfUnderstanding", "easeOfUnderstanding")
  ]

  /** The feedback export repeats no header, so every exported cell can be read back by its header. */
  lemma FeedbackHeadersDistinct()
    ensures DistinctHeaders(FeedbackColumns)
  {
    FeedbackHeadersBelow(5);
    FeedbackHeadersBelow(10);
    FeedbackHeadersBelow(14);
  }

  lemma FeedbackHeadersBelow(n: nat)
    requires n == 5 || n == 10 || n == 14
    ensures forall a, b :: 0 <= a < b < |FeedbackColumns| && n - 5 <= b < n ==> FeedbackColumns[a].header != FeedbackColumns[b].header
  {
  }

  /** The ratings export repeats no header either. */
  lemma RatingHeadersDistinct()
    ensures DistinctHeaders(RatingColumns)
  {
  }

  /** The fifth column copies `staffEmail` under "Email", a header no earlier column uses. */
  lemma EmailColumn()
    ensures |FeedbackColumns| == 14 && FeedbackColumns[4] == Copy("Email", "staffEmail")
    ensures forall i :: 0 <= i < 4 ==> FeedbackColumns[i].header != FeedbackColumns[4].header
  {
  }

  /** `handleExportFeedbacks(format)`: one row per feedback, in order, to Excel or else CSV. */
  function FeedbackExport(feedbacks: seq<Record>, format: string): (e: Export)
    ensures e.exporter == Excel <==> format == "excel"
    ensures e.fileName == "feedbacks" && |e.rows| == |feedbacks|
    ensures forall i :: 0 <= i < |feedbacks| ==> e.rows[i] == ExportRow(feedbacks[i], FeedbackColumns)
  {
    Export(ExcelOrCsv(format), "feedbacks", ExportRows(feedbacks, FeedbackColumns))
  }

  /** `handleExportRatings(format)`: one row per rating sheet, in order, to Excel or else CSV. */
  function RatingExport(ratings: seq<Record>, format: string): (e: Export)
    ensures e.exporter == Excel <==> format == "excel"
    ensures e.fileName == "ratings" && |e.rows| == |ratings|
    ensures forall i :: 0 <= i < |ratings| ==> e.rows[i] == ExportRow(ratings[i], RatingColumns)
  {
    Export(ExcelOrCsv(format), "ratings", ExportRows(ratings, RatingColumns))
  }

  /** An exported feedback row carries the staff e-mail under the header "Email". */
  lemma FeedbackRowEmail(feedbacks: seq<Record>, format: string, i: nat)
    requires i < |feedbacks|
    ensures Lookup(FeedbackExport(feedbacks, format).rows[i], "Email") == Some(Field(feedbacks[i], "staffEmail"))
  {
    EmailColumn();
    ExportedCell(feedbacks[i], FeedbackColumns, 4);
  }

  /** What the visit-date column shows: "N/A" for a missing date, else the date in the browser's locale. */
  datatype DateCell = NotAvailable | LocaleDate(raw: string)

  /** `formatDate`: a falsy input (missing, `null` or empty) gives "N/A". */
  function FormatDate(v: Value): (r: DateCell)
    requires v.Str? || v.Null?
    ensures r == NotAvailable <==> !Truthy(v)
    ensures r.LocaleDate? ==> r.raw == v.s
  {
    if v.Null? || v.s == "" then NotAvailable else LocaleDate(v.s)
  }

  // ---------------------------------------------------------------------------
  // The delete buttons
  // ---------------------------------------------------------------------------

  datatype Tab = FeedbackTab | RatingsTab

  /** What a tab's delete button does: nothing is shown, or it deletes the selected feedbacks or ratings. */
  datatype DeleteButton = Hidden | DeletesFeedbacks | DeletesRatings

  /**
   * The delete buttons as the page draws them: both tabs show the button only while some
   * feedback is selected, and both wire it to the feedback delete.
   */
  function DeleteButtonAsWritten(tab: Tab, selectedFeedbacks: seq<int>, selectedRatings: seq<int>): (b: DeleteButton)
    ensures b != DeletesRatings
  {
    if |selectedFeedbacks| > 0 then DeletesFeedbacks else Hidden
  }

  /**
   * As drawn, no selection of rating sheets can ever be deleted: with only ratings selected
   * the ratings tab shows no button, and with a feedback also selected its button deletes
   * that feedback instead.
   */
  lemma RatingsCannotBeDeletedAsWritten()
    ensures DeleteButtonAsWritten(RatingsTab, [], [7]) == Hidden
    ensures DeleteButtonAsWritten(RatingsTab, [3], [7]) == DeletesFeedbacks
  {
  }

  /** Each tab's button is shown while its own selection is non-empty and deletes its own selection. */
  function DeleteButtonOf(tab: Tab, selectedFeedbacks: seq<int>, selectedRatings: seq<int>): (b: DeleteButton)
    ensures tab == FeedbackTab ==> b != DeletesRatings && (b == DeletesFeedbacks <==> |selectedFeedbacks| > 0)
    ensures tab == RatingsTab ==> b != DeletesFeedbacks && (b == DeletesRatings <==> |selectedRatings| > 0)
  {
    match tab
    case FeedbackTab => if |selectedFeedbacks| > 0 then DeletesFeedbacks else Hidden
    case RatingsTab => if |selectedRatings| > 0 then DeletesRatings else Hidden
  }

  /** The feedback tab is drawn as the source draws it; only the ratings tab differs. */
  lemma FeedbackTabUnchanged(selectedFeedbacks: seq<int>, selectedRatings: seq<int>)
    ensures DeleteButtonOf(FeedbackTab, selectedFeedbacks, selectedRatings)
         == DeleteButtonAsWritten(FeedbackTab, selectedFeedbacks, selectedRatings)
  {
  }

  /** The page state: both tables and both selections. */
  class DetailsPage {
    var feedbacks: seq<Record>
    var ratings: seq<Record>
    var selectedFeedbacks: seq<int>
    var selectedRatings: seq<int>

    /** The page once both fetches have returned; nothing is selected. */
    constructor (fetchedFeedbacks: seq<Record>, fetchedRatings: seq<Record>)
      ensures feedbacks == fetchedFeedbacks && ratings == fetchedRatings
      ensures selectedFeedbacks == [] && selectedRatings == []
    {
      feedbacks := fetchedFeedbacks;
      ratings := fetchedRatings;
      selectedFeedbacks := [];
      selectedRatings := [];
    }

    /** `handleFeedbackSelection(id)`. */
    method ToggleFeedback(id: int)
      modifies this`selectedFeedbacks
      ensures selectedFeedbacks == Lists.Toggle(old(selectedFeedbacks), id)
    {
      selectedFeedbacks := Lists.Toggle(selectedFeedbacks, id);
    }

    /** `handleRatingSelection(id)`. */
    method ToggleRating(id: int)
      modifies this`selectedRatings
      ensures selectedRatings == Lists.Toggle(old(selectedRatings), id)
    {
      selectedRatings := Lists.Toggle(selectedRatings, id);
    }

    /** `handleDeleteSelectedFeedbacks`: drops the selected feedbacks and clears their selection. */
    method DeleteSelectedFeedbacks()
      modifies this`feedbacks, this`selectedFeedbacks
      ensures feedbacks == DeleteSelected(old(feedbacks), old(selectedFeedbacks))
      ensures selectedFeedbacks == []
    {
      feedbacks := DeleteSelected(feedbacks, selectedFeedbacks);
      selectedFeedbacks := [];
    }

    /** `handleDeleteSelectedRatings`: drops the selected rating sheets and clears their selection. */
    method DeleteSelectedRatings()
      modifies this`ratings, this`selectedRatings
      ensures ratings == DeleteSelected(old(ratings), old(selectedRatings))
      ensures selectedRatings == []
    {
      ratings := DeleteSelected(ratings, selectedRatings);
      selectedRatings := [];
    }

    /**
     * A click on a tab's delete button as the page draws it: shown only while some feedback is
     * selected, and on either tab it deletes the selected feedbacks.
     */
    method PressDelete(tab: Tab)
      requires DeleteButtonAsWritten(tab, selectedFeedbacks, selectedRatings) != Hidden
      modifies this
      ensures feedbacks == DeleteSelected(old(feedbacks), old(selectedFeedbacks)) && selectedFeedbacks == []
      ensures ratings == old(ratings) && selectedRatings == old(selectedRatings)
    {
      if DeleteButtonAsWritten(tab, selectedFeedbacks, selectedRatings) == DeletesFeedbacks {
        DeleteSelectedFeedbacks();
      }
    }

    /** A click on a tab's delete button as evidently intended: each tab deletes its own selection. */
    method PressDeleteCorrected(tab: Tab)
      requires DeleteButtonOf(tab, selectedFeedbacks, selectedRatings) != Hidden
      modifies this
      ensures tab == FeedbackTab ==>
        (feedbacks == DeleteSelected(old(feedbacks), old(selectedFeedbacks)) && selectedFeedbacks == []
         && ratings == old(ratings) && selectedRatings == old(selectedRatings))
      ensures tab == RatingsTab ==>
        (ratings == DeleteSelected(old(ratings), old(selectedRatings)) && selectedRatings == []
         && feedbacks == old(feedbacks) && selectedFeedbacks == old(selectedFeedbacks))
    {
      if DeleteButtonOf(tab, selectedFeedbacks, selectedRatings) == DeletesFeedbacks {
        DeleteSelectedFeedbacks();
      } else {
        DeleteSelectedRatings();
      }
    }

    /** The feedback tab's header checkbox. */
    method SelectAllFeedbacks()
      modifies this`selectedFeedbacks
      ensures selectedFeedbacks == SelectAll(old(selectedFeedbacks), feedbacks)
    {
      selectedFeedbacks := SelectAll(selectedFeedbacks, feedbacks);
    }

    /** The ratings tab's header checkbox. */
    method SelectAllRatings()
      modifies this`selectedRatings
      ensures selectedRatings == SelectAll(old(selectedRatings), ratings)
    {
      selectedRatings := SelectAll(selectedRatings, ratings);
    }
  }
}
