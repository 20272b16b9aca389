/** The establishment (daara) list page: the search box and delete with its confirmation dialog. */
module Establishments {
  import opened JsArray
  import opened JsString
  import opened Types
  import opened Lists

  /** The texts the search box looks in: name, city, country. */
  function SearchFields(e: Establishment): seq<string> {
    [e.name, e.city, e.country]
  }

  predicate Matches(e: Establishment, query: string) {
    Includes(ToLower(e.name), ToLower(query))
    || Includes(ToLower(e.city), ToLower(query))
    || Includes(ToLower(e.country), ToLower(query))
  }

  lemma MatchesIsSearch(query: string)
    ensures forall e :: Matches(e, query) <==> SearchMatches(SearchFields(e), query)
  {
    forall e ensures Matches(e, query) ==> SearchMatches(SearchFields(e), query) {
      var fs := SearchFields(e);
      assert fs[0] == e.name && fs[1] == e.city && fs[2] == e.country;
    }
  }

  /**
   * `filteredEstablishments`: in order, exactly the establishments whose
   * name, city or country contains the query, ignoring ASCII case; an empty
   * query keeps every establishment.
   */
  function Filtered(establishments: seq<Establishment>, query: string): (r: seq<Establishment>)
    ensures forall e :: e in r <==> e in establishments && Matches(e, query)
    ensures forall e :: multiset(r)[e] == if Matches(e, query) then multiset(establishments)[e] else 0
    ensures IsSubsequence(r, establishments)
    ensures query == "" ==> r == establishments
  {
    MatchesIsSearch(query);
    var r := Search(establishments, SearchFields, query);
    if query == "" then SearchEmptyQuery(establishments, SearchFields); r else r
  }

  lemma FilteredNarrows(establishments: seq<Establishment>, query: string, more: string)
    ensures IsSubsequence(Filtered(establishments, query + more), Filtered(establishments, query))
  {
    SearchNarrows(establishments, SearchFields, query, more);
  }

  function EstablishmentId(e: Establishment): string { e.id }

  class EstablishmentsPage {
    var establishments: seq<Establishment>
    var searchQuery: string
    var deleteDialogOpen: bool
    var selectedEstablishment: Option<Establishment>

    ghost predicate Valid()
      reads this
    {
      deleteDialogOpen ==> selectedEstablishment.Some?
    }

    constructor(initial: seq<Establishment>)
      ensures establishments == initial && searchQuery == ""
      ensures !deleteDialogOpen && selectedEstablishment == None
      ensures Valid()
    {
      establishments := initial;
      searchQuery := "";
      deleteDialogOpen := false;
      selectedEstablishment := None;
    }

    function Visible(): (r: seq<Establishment>)
      reads this
      ensures forall e :: e in r <==> e in establishments && Matches(e, searchQuery)
      ensures forall e :: multiset(r)[e] == if Matches(e, searchQuery) then multiset(establishments)[e] else 0
      ensures IsSubsequence(r, establishments)
      ensures searchQuery == "" ==> r == establishments
    {
      Filtered(establishments, searchQuery)
    }

    method SetSearchQuery(query: string)
      modifies this
      ensures searchQuery == query
      ensures establishments == old(establishments) && deleteDialogOpen == old(deleteDialogOpen)
      ensures selectedEstablishment == old(selectedEstablishment)
    {
      searchQuery := query;
    }

    method HandleDelete(est: Establishment)
      modifies this
      ensures selectedEstablishment == Some(est) && deleteDialogOpen
      ensures establishments == old(establishments) && searchQuery == old(searchQuery)
      ensures Valid()
    {
      selectedEstablishment := Some(est);
      deleteDialogOpen := true;
    }

    method SetDeleteDialogOpen(open: bool)
      requires open ==> selectedEstablishment.Some?
      modifies this
      ensures deleteDialogOpen == open
      ensures establishments == old(establishments) && searchQuery == old(searchQuery)
      ensures selectedEstablishment == old(selectedEstablishment)
      ensures Valid()
    {
      deleteDialogOpen := open;
    }

    method ConfirmDelete()
      modifies this
      ensures old(selectedEstablishment).None? ==> unchanged(this)
      ensures old(selectedEstablishment).Some? ==>
        establishments == WithoutId(old(establishments), EstablishmentId, old(selectedEstablishment).value.id)
        && !deleteDialogOpen && selectedEstablishment == None && searchQuery == old(searchQuery)
      ensures old(Valid()) ==> Valid()
    {
      if selectedEstablishment.Some? {
        establishments := WithoutId(establishments, EstablishmentId, selectedEstablishment.value.id);
        deleteDialogOpen := false;
        selectedEstablishment := None;
      }
    }
  }
}
