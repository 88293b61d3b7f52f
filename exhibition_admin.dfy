/**
 * The admin page listing exhibition-venue questionnaires: selection, bulk delete, export
 * to Excel or CSV, and the "Yes"/"No" rendering of the yes/no questions.
 */
module ExhibitionAdmin {
  import opened AdminTables
  import Lists

  /** The columns of the exhibition export, in order. */
  const ExhibitionColumns: seq<Column> := [
    Copy("HallDimension", "hallDimension"), Copy("EnclosedHall", "isEnclosedHall"),
    Copy("Darkened", "canBeDarkened"), Copy("Cooling", "hasCooling"),
    Copy("GroundFloor", "isGroundFloor"), Copy("StorageSpace", "hasStorageSpace"),
    Copy("PowerOutlets", "powerOutlets"), Copy("NumTables", "numTables"),
    Copy("VRSpace", "vrSpace"), Copy("Wifi", "hasWifi"),
    Copy("LectureHallArea", "lectureHallArea"), Copy("SeatingCapacity", "seatingCapacity"),
    Copy("AVFacilities", "hasAVFacilities"), Copy("DistanceFromExhibition", "distanceFromExhibition"),
    Copy("AccommodationProvided", "accommodationProvided"), Copy("LocalTransportation", "localTransportation"),
    Copy("SecureParkingSpace", "secureParkingSpace"), Copy("ManpowerForLoading", "manpowerForLoading"),
    Copy("ContactPersonName", "contactPersonName"), Copy("ContactPersonMobile", "contactPersonMobile"),
    Copy("ContactPersonEmail", "contactPersonEmail"), Copy("VenueLocation", "venueLocation"),
    Copy("TeacherInvitation", "teacherInvitation"), Copy("TeacherRegistration", "teacherRegistration"),
    Copy("WritingMaterialsProvided", "providesWritingMaterials"), Copy("RefreshmentsProvided", "providesRefreshments"),
    Copy("QuizForStudents", "quizForSchoolStudents"), Copy("QuizTeamSelection", "quizTeamSelection"),
    Copy("QuizArrangements", "quizArrangements"), Copy("QuizRefreshments", "quizRefreshments")
  ]

  /** `handleExportExhibitions(format)`: one row per questionnaire, in order, to Excel or else CSV. */
  function ExhibitionExport(exhibitions: seq<Record>, format: string): (e: Export)
    ensures e.exporter == Excel <==> format == "excel"
    ensures e.fileName == "exhibitions" && |e.rows| == |exhibitions|
    ensures forall i :: 0 <= i < |exhibitions| ==> e.rows[i] == ExportRow(exhibitions[i], ExhibitionColumns)
  {
    Export(ExcelOrCsv(format), "exhibitions", ExportRows(exhibitions, ExhibitionColumns))
  }

  /** The fields the tables draw as "Yes"/"No" rather than as their value. */
  const YesNoFields: seq<string> := [
    "hasAVFacilities", "teacherInvitation", "teacherRegistration", "providesWritingMaterials",
    "providesRefreshments", "quizForSchoolStudents", "quizTeamSelection", "quizRefreshments"
  ]

  /** `value ? 'Yes' : 'No'`. */
  function YesNo(v: Value): (r: string)
    ensures r == "Yes" <==> Truthy(v)
    ensures r == "Yes" || r == "No"
  {
    if Truthy(v) then "Yes" else "No"
  }

  /** A text answer reads "Yes" exactly when it is non-empty — even the text "0" or "No". */
  lemma TextAnswerYesIffNonEmpty(s: string)
    ensures YesNo(Str(s)) == "Yes" <==> s != ""
    ensures YesNo(Str("No")) == "Yes" && YesNo(Str("0")) == "Yes"
    ensures YesNo(Num(0)) == "No" && YesNo(Null) == "No"
  {
  }

  /** What the yes/no cells of one questionnaire show, in the order of `YesNoFields`. */
  function YesNoCells(ex: Record): (cells: seq<string>)
    ensures |cells| == |YesNoFields|
    ensures forall j :: 0 <= j < |YesNoFields| ==> (cells[j] == "Yes" <==> Truthy(Field(ex, YesNoFields[j])))
  {
    seq(|YesNoFields|, j requires 0 <= j < |YesNoFields| => YesNo(Field(ex, YesNoFields[j])))
  }

  /**
   * The rows the tables draw: the search box stores its term, but every table maps over
   * `exhibitions` itself, so the term filters nothing.
   */
  function Displayed(exhibitions: seq<Record>, searchTerm: string): (rows: seq<Record>)
    ensures rows == exhibitions
  {
    exhibitions
  }

  /** The page state: the fetched questionnaires, the selected ids and the search box. */
  class ExhibitionsPage {
    var exhibitions: seq<Record>
    var selectedExhibitions: seq<int>
    var searchTerm: string

    /** The page once the fetch has returned: nothing selected, an empty search box. */
    constructor (fetched: seq<Record>)
      ensures exhibitions == fetched && selectedExhibitions == [] && searchTerm == ""
    {
      exhibitions := fetched;
      selectedExhibitions := [];
      searchTerm := "";
    }

    /** `handleExhibitionSelection(id)`. */
    method HandleExhibitionSelection(id: int)
      modifies this`selectedExhibitions
      ensures selectedExhibitions == Lists.Toggle(old(selectedExhibitions), id)
    {
      selectedExhibitions := Lists.Toggle(selectedExhibitions, id);
    }

    /** `handleDeleteSelectedExhibitions`: drops the selected questionnaires and clears the selection. */
    method HandleDeleteSelectedExhibitions()
      modifies this`exhibitions, this`selectedExhibitions
      ensures exhibitions == DeleteSelected(old(exhibitions), old(selectedExhibitions))
      ensures selectedExhibitions == []
    {
      exhibitions := DeleteSelected(exhibitions, selectedExhibitions);
      selectedExhibitions := [];
    }

    /** Typing in the search box changes only the stored term; the rows drawn stay the same. */
    method SetSearchTerm(term: string)
      modifies this`searchTerm
      ensures searchTerm == term
      ensures Displayed(exhibitions, searchTerm) == Displayed(exhibitions, old(searchTerm))
    {
      searchTerm := term;
    }
  }
}
