/**
 * The admin dashboard: a grid of form cards with a title search. The full list comes in as
 * a prop; the cards drawn are `filteredForms`, reset to the full list whenever the prop
 * changes and narrowed by the search box.
 */
module Dashboard {
  import opened Text
  import Lists

  /** A form card as the dashboard sees it. */
  datatype Form = Form(id: int, title: string)

  /** The card's title contains the query, ignoring case. */
  predicate TitleMatches(f: Form, query: string) {
    ContainsIgnoringCase(f.title, query)
  }

  /**
   * `handleSearch(query)`: an empty query gives back every form; any other query keeps exactly
   * the forms whose title contains it, ignoring case, in their original order.
   */
  function SearchForms(forms: seq<Form>, query: string): (r: seq<Form>)
    ensures query == "" ==> r == forms
    ensures query != "" ==> forall f :: f in r <==> f in forms && TitleMatches(f, query)
    ensures Lists.IsSubsequence(r, forms)
    ensures query != "" ==> forall f :: multiset(r)[f] == if TitleMatches(f, query) then multiset(forms)[f] else 0
  {
    if query == "" then
      Lists.SubsequenceOfItself(forms);
      forms
    else
      var keep := (f: Form) => TitleMatches(f, query);
      forall f ensures f in Lists.Filter(forms, keep) <==> f in forms && TitleMatches(f, query) {
        Lists.FilterMembership(forms, keep, f);
      }
      forall f ensures multiset(Lists.Filter(forms, keep))[f] == if TitleMatches(f, query) then multiset(forms)[f] else 0 {
        Lists.FilterKeepsCopies(forms, keep, f);
      }
      Lists.FilterIsSubsequence(forms, keep);
      Lists.Filter(forms, keep)
  }

  /** Case does not matter: a query and its lower-cased form find the same forms. */
  lemma SearchIgnoresCase(forms: seq<Form>, query: string)
    ensures SearchForms(forms, ToLower(query)) == SearchForms(forms, query)
  {
    ToLowerIdempotent(query);
    if query != "" {
      assert ToLower(query) != "";
      Lists.FilterSameTest(forms, (f: Form) => TitleMatches(f, ToLower(query)), (f: Form) => TitleMatches(f, query));
    } else {
      assert ToLower(query) == "";
    }
  }

  /** A form whose title is the query itself is always found. */
  lemma TitleFindsItsForm(forms: seq<Form>, f: Form)
    requires f in forms
    ensures f in SearchForms(forms, f.title)
  {
    if f.title != "" {
      assert OccursAt(ToLower(f.title), ToLower(f.title), 0);
    }
  }

  /** The dashboard's state. */
  class DashboardPage {
    var forms: seq<Form>
    var filteredForms: seq<Form>
    var isLoading: bool

    /** The first render: no cards yet, loading. */
    constructor (initialForms: seq<Form>)
      ensures forms == initialForms && filteredForms == [] && isLoading
    {
      forms := initialForms;
      filteredForms := [];
      isLoading := true;
    }

    /** The effect on a new `forms` prop: every card is shown and loading ends. */
    method FormsChanged(newForms: seq<Form>)
      modifies this
      ensures forms == newForms && filteredForms == newForms && !isLoading
    {
      forms := newForms;
      filteredForms := newForms;
      isLoading := false;
    }

    /** `handleSearch(query)`: the cards drawn become the search result over the full list. */
    method HandleSearch(query: string)
      modifies this`filteredForms
      ensures filteredForms == SearchForms(forms, query)
    {
      filteredForms := SearchForms(forms, query);
    }
  }
}
