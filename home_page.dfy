/** The admin dashboard's logic (src/pages/HomePage.tsx): the search filter,
    row selection, bulk delete and the UTC suffix rule for dates. */
module HomePage {
  import opened Interfaces
  import opened Seqs
  import opened Text
  import LeadsContext

  // ---------------------------------------------------------------------------
  // Search

  /** The per-lead test of the search, given the lower-cased query: name, email
      or a present company name contains it. An absent company name
      contributes `undefined`, which is falsy. */
  predicate MatchesQuery(lead: Lead, lowerCaseQuery: string)
  {
    || Includes(Lower(lead.fullName), lowerCaseQuery)
    || Includes(Lower(lead.email), lowerCaseQuery)
    || (lead.companyName.Some? && Includes(Lower(lead.companyName.value), lowerCaseQuery))
  }

  function Matches(lowerCaseQuery: string): Lead -> bool
  {
    (lead: Lead) => MatchesQuery(lead, lowerCaseQuery)
  }

  /** The leads shown for a (debounced) query: all of them for the empty
      query, otherwise those matching it case-insensitively. */
  function SearchFilter(leads: seq<Lead>, query: string): seq<Lead>
  {
    if query == "" then leads else Filter(leads, Matches(Lower(query)))
  }

  ghost predicate IsSubstring(q: string, s: string)
  {
    exists i :: OccursAt(s, q, i)
  }

  /** The empty query shows the whole collection, same leads, same order. */
  lemma EmptyQueryShowsAll(leads: seq<Lead>)
    ensures SearchFilter(leads, "") == leads
  {
  }

  /** The shown leads are the collection with some leads deleted: nothing is
      added, duplicated or reordered. */
  lemma SearchIsSubsequence(leads: seq<Lead>, query: string)
    ensures SubsequenceOf(SearchFilter(leads, query), leads)
  {
    if query == "" {
      SubsequenceOfSelf(leads);
    } else {
      FilterIsSubsequence(leads, Matches(Lower(query)));
    }
  }

  /** For a non-empty query a lead is shown exactly when the lower-cased query
      is a substring of its lower-cased name, of its lower-cased email, or of
      its lower-cased company name when it has one. */
  lemma SearchKeepsExactly(leads: seq<Lead>, query: string, lead: Lead)
    requires query != ""
    ensures lead in SearchFilter(leads, query) <==>
              lead in leads &&
              (|| IsSubstring(Lower(query), Lower(lead.fullName))
               || IsSubstring(Lower(query), Lower(lead.email))
               || (lead.companyName.Some? && IsSubstring(Lower(query), Lower(lead.companyName.value))))
  {
    IncludesIff(Lower(lead.fullName), Lower(query));
    IncludesIff(Lower(lead.email), Lower(query));
    if lead.companyName.Some? {
      IncludesIff(Lower(lead.companyName.value), Lower(query));
    }
  }

  /** A lead without a company name whose name and email do not contain the
      query is never shown for that query. */
  lemma NoCompanyNoMatch(leads: seq<Lead>, query: string, lead: Lead)
    requires query != "" && lead.companyName.None?
    requires !IsSubstring(Lower(query), Lower(lead.fullName))
    requires !IsSubstring(Lower(query), Lower(lead.email))
    ensures lead !in SearchFilter(leads, query)
  {
    SearchKeepsExactly(leads, query, lead);
  }

  /** Queries that differ only in ASCII letter case show the same leads. */
  lemma SearchIgnoresCase(leads: seq<Lead>, q1: string, q2: string)
    requires Lower(q1) == Lower(q2)
    ensures SearchFilter(leads, q1) == SearchFilter(leads, q2)
  {
    assert |q1| == |Lower(q1)| == |Lower(q2)| == |q2|;
  }

  // ---------------------------------------------------------------------------
  // Selection

  function Other(leadId: string): string -> bool
  {
    (id: string) => id != leadId
  }

  /** `prev.includes(leadId) ? prev.filter((id) => id !== leadId) : [...prev, leadId]` */
  function Toggle(selected: seq<string>, leadId: string): seq<string>
  {
    if leadId in selected then Filter(selected, Other(leadId)) else selected + [leadId]
  }

  /** Toggling a selected id removes every occurrence of it and nothing else,
      keeping the order; toggling an unselected id appends it at the end. */
  lemma ToggleEffect(selected: seq<string>, leadId: string)
    ensures leadId in selected ==>
              && leadId !in Toggle(selected, leadId)
              && SubsequenceOf(Toggle(selected, leadId), selected)
              && forall x :: x != leadId ==> multiset(Toggle(selected, leadId))[x] == multiset(selected)[x]
    ensures leadId !in selected ==> Toggle(selected, leadId) == selected + [leadId]
  {
    if leadId in selected {
      FilterIsSubsequence(selected, Other(leadId));
      forall x | x != leadId
        ensures multiset(Toggle(selected, leadId))[x] == multiset(selected)[x]
      {
        FilterCount(selected, Other(leadId), x);
      }
    }
  }

  /** Checking an unselected row and unchecking it again restores the
      selection exactly. */
  lemma ToggleTwiceRestores(selected: seq<string>, leadId: string)
    requires leadId !in selected
    ensures Toggle(Toggle(selected, leadId), leadId) == selected
  {
    FilterConcat(selected, [leadId], Other(leadId));
    FilterAllPass(selected, Other(leadId));
  }

  /** Unchecking removes as many entries as the id occurs. */
  lemma {:induction false} UncheckLength(selected: seq<string>, leadId: string)
    ensures |Filter(selected, Other(leadId))| == |selected| - multiset(selected)[leadId]
    decreases |selected|
  {
    if selected != [] {
      UncheckLength(selected[1..], leadId);
      assert selected == [selected[0]] + selected[1..];
    }
  }

  /** With distinct ids, selecting all k shown rows and then unchecking one of
      them leaves k - 1 selected, so the select-all flag drops to false. */
  lemma UncheckOneAfterSelectAll(shown: seq<Lead>, i: int)
    requires HasIds(shown) && UniqueIds(shown) && 0 <= i < |shown|
    ensures |Toggle(Ids(shown), shown[i].id.value)| == |shown| - 1
    ensures |Toggle(Ids(shown), shown[i].id.value)| != |shown|
  {
    var ids := Ids(shown);
    var leadId := shown[i].id.value;
    assert ids[i] == leadId;
    assert Distinct(ids) by {
      forall a, b | 0 <= a < b < |ids| ensures ids[a] != ids[b] {
        assert shown[a].id != shown[b].id;
      }
    }
    DistinctOccursOnce(ids, leadId);
    UncheckLength(ids, leadId);
  }

  // ---------------------------------------------------------------------------
  // Dates

  /** A timestamp without the UTC marker gets one appended before parsing. */
  function NormalizeUtc(dateString: string): (r: string)
    ensures EndsWith(r, "Z")
    ensures |dateString| <= |r| <= |dateString| + 1 && r[..|dateString|] == dateString
    ensures r == dateString <==> EndsWith(dateString, "Z")
  {
    if EndsWith(dateString, "Z") then dateString else dateString + "Z"
  }

  lemma NormalizeUtcIdempotent(dateString: string)
    ensures NormalizeUtc(NormalizeUtc(dateString)) == NormalizeUtc(dateString)
  {
  }

  // ---------------------------------------------------------------------------
  // Dashboard state

  /** The dashboard's row state: the checked ids, the header checkbox and the
      rows currently shown. */
  class Dashboard {
    var selectedLeads: seq<string>
    var selectAll: bool
    var filteredLeads: seq<Lead>

    /** First render: nothing checked, the rows are the collection as given. */
    constructor (leads: seq<Lead>)
      ensures selectedLeads == [] && !selectAll && filteredLeads == leads
    {
      selectedLeads := [];
      selectAll := false;
      filteredLeads := leads;
    }

    /** The effect that re-filters when the collection or the debounced query
        changes. The selection is not pruned. */
    method ApplyDebouncedQuery(leads: seq<Lead>, debouncedSearchQuery: string)
      modifies this
      ensures filteredLeads == SearchFilter(leads, debouncedSearchQuery)
      ensures selectedLeads == old(selectedLeads) && selectAll == old(selectAll)
    {
      if debouncedSearchQuery == "" {
        filteredLeads := leads;
        return;
      }
      var lowerCaseQuery := Lower(debouncedSearchQuery);
      filteredLeads := Filter(leads, Matches(lowerCaseQuery));
    }

    /** The effect on the live query: clearing the search box shows the whole
        collection at once, without waiting for the debounce. */
    method ApplyLiveQuery(leads: seq<Lead>, searchQuery: string)
      modifies this
      ensures searchQuery == "" ==> filteredLeads == leads
      ensures searchQuery != "" ==> filteredLeads == old(filteredLeads)
      ensures selectedLeads == old(selectedLeads) && selectAll == old(selectAll)
    {
      if searchQuery == "" {
        filteredLeads := leads;
      }
    }

    /** The header checkbox: clears a full selection, otherwise checks exactly
        the shown rows, in order. */
    method HandleSelectAll()
      requires HasIds(filteredLeads)
      modifies this
      ensures filteredLeads == old(filteredLeads)
      ensures old(selectAll) ==> selectedLeads == [] && !selectAll
      ensures !old(selectAll) ==> selectedLeads == Ids(filteredLeads) && selectAll
      ensures !old(selectAll) ==> |selectedLeads| == |filteredLeads|
    {
      if selectAll {
        selectedLeads := [];
        selectAll := false;
      } else {
        var allLeadIds := Ids(filteredLeads);
        selectedLeads := allLeadIds;
        selectAll := true;
      }
    }

    /** A row checkbox: toggles the id, then recomputes the header checkbox by
        comparing lengths. */
    method HandleCheckboxChange(leadId: string)
      modifies this
      ensures selectedLeads == Toggle(old(selectedLeads), leadId)
      ensures selectAll == (|selectedLeads| == |filteredLeads|)
      ensures filteredLeads == old(filteredLeads)
    {
      var newSelected := Toggle(selectedLeads, leadId);
      selectAll := |newSelected| == |filteredLeads|;
      selectedLeads := newSelected;
    }

    /** The delete button: asks the collection to delete the checked ids, then
        clears the selection whatever the outcome. */
    method HandleDelete(store: LeadsContext.LeadsStore, result: Option<LeadsContext.ApiResult>)
      modifies this, store
      ensures result.Some? && result.value.success ==>
                store.leads == LeadsContext.Remaining(old(store.leads), old(selectedLeads))
      ensures !(result.Some? && result.value.success) ==> store.leads == old(store.leads)
      ensures selectedLeads == [] && !selectAll
      ensures filteredLeads == old(filteredLeads)
    {
      store.DeleteLeads(selectedLeads, result);
      selectedLeads := [];
      selectAll := false;
    }
  }

  /** Checking all k shown rows of distinct ids and then unchecking one leaves
      k - 1 checked and the header checkbox off. */
  method SelectAllThenUncheckOne(shown: seq<Lead>, i: int) returns (selectedCount: nat, selectAll: bool)
    requires HasIds(shown) && UniqueIds(shown) && 0 <= i < |shown|
    ensures selectedCount == |shown| - 1 && !selectAll
  {
    var d := new Dashboard(shown);
    d.HandleSelectAll();
    UncheckOneAfterSelectAll(shown, i);
    d.HandleCheckboxChange(shown[i].id.value);
    selectedCount, selectAll := |d.selectedLeads|, d.selectAll;
  }
}
