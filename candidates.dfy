/**
 * The candidate list screen (src/pages/enterprise/Candidates.tsx): a search box over
 * name, e-mail and phone, a status select, a position picker with its own search, and
 * ten candidates a page.
 */
module Candidates {
  import opened Wrappers
  import opened JsStrings
  import opened Lists

  /** A position the picker offers. */
  datatype Position = Position(id: string, name: string, department: string)

  /** A row of the candidate list. */
  datatype Candidate = Candidate(
    id: int, name: string, currentPosition: string, currentCompany: string, salary: string,
    email: string, phone: string, location: string, appliedPosition: string, status: string)

  /** `ITEMS_PER_PAGE`. */
  const ItemsPerPage: nat := 10

  // ---------------------------------------------------------------------------
  // The position picker
  // ---------------------------------------------------------------------------

  /** A position is offered when its name or department contains the picker's text,
      ignoring case. */
  predicate PositionMatches(p: Position, positionSearch: string) {
    IncludesIgnoringCase(p.name, positionSearch) || IncludesIgnoringCase(p.department, positionSearch)
  }

  /** `filteredPositions`: the positions the picker's dropdown lists, in their order. */
  function FilteredPositions(positions: seq<Position>, positionSearch: string): (r: seq<Position>)
    ensures forall i :: 0 <= i < |r| ==> r[i] in positions && PositionMatches(r[i], positionSearch)
    ensures forall i :: 0 <= i < |positions| && PositionMatches(positions[i], positionSearch) ==> positions[i] in r
    ensures IsSubsequence(r, positions)
  {
    var offered := (p: Position) => PositionMatches(p, positionSearch);
    FilterIsSubsequence(positions, offered);
    Filter(positions, offered)
  }

  /** With the picker's text empty every position is offered. */
  lemma EmptyPositionSearchOffersAll(positions: seq<Position>)
    ensures FilteredPositions(positions, "") == positions
  {
    forall i | 0 <= i < |positions| ensures PositionMatches(positions[i], "") {
      EmptyIncludedIgnoringCase(positions[i].name);
    }
    FilterAll(positions, (p: Position) => PositionMatches(p, ""));
  }

  // ---------------------------------------------------------------------------
  // The candidate filter and its pages
  // ---------------------------------------------------------------------------

  /** The search box matches the name or the e-mail ignoring case, or the phone number
      as typed. */
  predicate MatchesSearch(c: Candidate, searchTerm: string) {
    || IncludesIgnoringCase(c.name, searchTerm)
    || IncludesIgnoringCase(c.email, searchTerm)
    || Includes(c.phone, searchTerm)
  }

  /** `'all'` passes every status; any other choice must equal the candidate's status. */
  predicate MatchesStatus(c: Candidate, selectedStatus: string) {
    selectedStatus == "all" || c.status == selectedStatus
  }

  /** With no position picked every candidate passes; otherwise the position the
      candidate applied for must carry the picked position's name. */
  predicate MatchesPosition(c: Candidate, selectedPosition: Option<Position>) {
    selectedPosition.None? || c.appliedPosition == selectedPosition.value.name
  }

  /** The three conditions together. */
  predicate Shows(c: Candidate, searchTerm: string, selectedStatus: string, selectedPosition: Option<Position>) {
    MatchesSearch(c, searchTerm) && MatchesStatus(c, selectedStatus) && MatchesPosition(c, selectedPosition)
  }

  /** `filteredCandidates`: exactly the candidates that pass search, status and position,
      in the order of the list. */
  function FilteredCandidates(candidates: seq<Candidate>, searchTerm: string, selectedStatus: string,
                              selectedPosition: Option<Position>): (r: seq<Candidate>)
    ensures forall i :: 0 <= i < |r| ==> r[i] in candidates && Shows(r[i], searchTerm, selectedStatus, selectedPosition)
    ensures forall i :: 0 <= i < |candidates| && Shows(candidates[i], searchTerm, selectedStatus, selectedPosition) ==>
      candidates[i] in r
    ensures IsSubsequence(r, candidates)
  {
    var shows := (c: Candidate) => Shows(c, searchTerm, selectedStatus, selectedPosition);
    FilterIsSubsequence(candidates, shows);
    Filter(candidates, shows)
  }

  /** `paginatedCandidates`: the slice from `(currentPage - 1) * 10`, ten rows long. It is
      the page of the shared paging helpers, holds at most ten rows, and is empty exactly
      on pages past the last. */
  function PaginatedCandidates(filtered: seq<Candidate>, currentPage: int): (r: seq<Candidate>)
    ensures r == PageOf(filtered, currentPage, ItemsPerPage)
    ensures currentPage >= 1 ==> |r| <= ItemsPerPage
    ensures currentPage >= 1 ==> (r != [] <==> currentPage <= TotalPages(|filtered|, ItemsPerPage))
  {
    var startIndex := (currentPage - 1) * ItemsPerPage;
    if currentPage >= 1 then
      PageContents(filtered, currentPage, ItemsPerPage);
      NonEmptyPagesExactly(filtered, currentPage, ItemsPerPage);
      Slice(filtered, startIndex, startIndex + ItemsPerPage)
    else
      Slice(filtered, startIndex, startIndex + ItemsPerPage)
  }

  /** With an empty search box, status `'all'` and no position, the whole list shows. */
  lemma NoFilterShowsAll(candidates: seq<Candidate>)
    ensures FilteredCandidates(candidates, "", "all", None) == candidates
  {
    forall i | 0 <= i < |candidates| ensures Shows(candidates[i], "", "all", None) {
      EmptyIncludedIgnoringCase(candidates[i].name);
    }
    FilterAll(candidates, (c: Candidate) => Shows(c, "", "all", None));
  }

  /** Choosing a status or a position only ever hides rows: what shows is a subsequence
      of what the same search shows with status `'all'` and no position. */
  lemma NarrowingHidesRows(candidates: seq<Candidate>, searchTerm: string, selectedStatus: string,
                           selectedPosition: Option<Position>)
    ensures IsSubsequence(FilteredCandidates(candidates, searchTerm, selectedStatus, selectedPosition),
                          FilteredCandidates(candidates, searchTerm, "all", None))
  {
    FilterStronger(candidates,
      (c: Candidate) => Shows(c, searchTerm, selectedStatus, selectedPosition),
      (c: Candidate) => Shows(c, searchTerm, "all", None));
  }

  // ---------------------------------------------------------------------------
  // The screen's state
  // ---------------------------------------------------------------------------

  /** The screen's state: the filters, the page, the picker and the open profile. */
  class CandidatesScreen {
    const candidates: seq<Candidate>
    const positions: seq<Position>
    var searchTerm: string
    var selectedStatus: string
    var currentPage: int
    var selectedCandidate: Option<int>
    var positionSearch: string
    var showPositionDropdown: bool
    var selectedPosition: Option<Position>

    /** Pages are counted from 1. */
    ghost predicate Valid()
      reads this
    {
      currentPage >= 1
    }

    /** The initial state: nothing typed, every status, page 1, nothing picked. */
    constructor(candidates: seq<Candidate>, positions: seq<Position>)
      ensures Valid()
      ensures this.candidates == candidates && this.positions == positions
      ensures searchTerm == "" && selectedStatus == "all" && currentPage == 1
      ensures selectedCandidate == None && positionSearch == "" && !showPositionDropdown
      ensures selectedPosition == None
    {
      this.candidates := candidates;
      this.positions := positions;
      searchTerm := "";
      selectedStatus := "all";
      currentPage := 1;
      selectedCandidate := None;
      positionSearch := "";
      showPositionDropdown := false;
      selectedPosition := None;
    }

    /** The rows of the list. */
    function Visible(): seq<Candidate>
      reads this
    {
      FilteredCandidates(candidates, searchTerm, selectedStatus, selectedPosition)
    }

    /** The rows on the current page. */
    function PageRows(): seq<Candidate>
      reads this
    {
      PaginatedCandidates(Visible(), currentPage)
    }

    /** `handlePositionSelect`: the position is picked, its name goes into the picker's
        box and the dropdown closes. */
    method HandlePositionSelect(position: Position)
      modifies this
      ensures selectedPosition == Some(position) && positionSearch == position.name && !showPositionDropdown
      ensures searchTerm == old(searchTerm) && selectedStatus == old(selectedStatus)
      ensures currentPage == old(currentPage) && selectedCandidate == old(selectedCandidate)
    {
      selectedPosition := Some(position);
      positionSearch := position.name;
      showPositionDropdown := false;
    }

    /** `handleClearPosition`: no position is picked and the picker's box is emptied. */
    method HandleClearPosition()
      modifies this
      ensures selectedPosition == None && positionSearch == ""
      ensures showPositionDropdown == old(showPositionDropdown)
      ensures searchTerm == old(searchTerm) && selectedStatus == old(selectedStatus)
      ensures currentPage == old(currentPage) && selectedCandidate == old(selectedCandidate)
    {
      selectedPosition := None;
      positionSearch := "";
    }

    /** Typing in the picker's box opens the dropdown; emptying the box drops the picked
        position, any other text keeps it. */
    method PositionSearchChange(value: string)
      modifies this
      ensures positionSearch == value && showPositionDropdown
      ensures selectedPosition == if value == "" then None else old(selectedPosition)
      ensures searchTerm == old(searchTerm) && selectedStatus == old(selectedStatus)
      ensures currentPage == old(currentPage) && selectedCandidate == old(selectedCandidate)
    {
      positionSearch := value;
      showPositionDropdown := true;
      if value == "" {
        selectedPosition := None;
      }
    }

    /** Typing in the search box changes the term and nothing else: the page is kept. */
    method SearchChange(value: string)
      modifies this
      ensures searchTerm == value
      ensures selectedStatus == old(selectedStatus) && currentPage == old(currentPage)
      ensures selectedPosition == old(selectedPosition) && positionSearch == old(positionSearch)
      ensures showPositionDropdown == old(showPositionDropdown) && selectedCandidate == old(selectedCandidate)
    {
      searchTerm := value;
    }

    /** Choosing a status changes the status and nothing else: the page is kept. */
    method StatusChange(value: string)
      modifies this
      ensures selectedStatus == value
      ensures searchTerm == old(searchTerm) && currentPage == old(currentPage)
      ensures selectedPosition == old(selectedPosition) && positionSearch == old(positionSearch)
      ensures showPositionDropdown == old(showPositionDropdown) && selectedCandidate == old(selectedCandidate)
    {
      selectedStatus := value;
    }

    /** The pagination bar's `onPageChange`; the bar only offers pages from 1. */
    method PageChange(page: int)
      requires page >= 1
      modifies this
      ensures Valid() && currentPage == page
      ensures searchTerm == old(searchTerm) && selectedStatus == old(selectedStatus)
      ensures selectedPosition == old(selectedPosition) && positionSearch == old(positionSearch)
      ensures showPositionDropdown == old(showPositionDropdown) && selectedCandidate == old(selectedCandidate)
    {
      currentPage := page;
    }

    /** `handleCandidateClick` opens the candidate's profile. */
    method HandleCandidateClick(candidateId: int)
      modifies this
      ensures selectedCandidate == Some(candidateId)
      ensures searchTerm == old(searchTerm) && selectedStatus == old(selectedStatus) && currentPage == old(currentPage)
      ensures selectedPosition == old(selectedPosition) && positionSearch == old(positionSearch)
      ensures showPositionDropdown == old(showPositionDropdown)
    {
      selectedCandidate := Some(candidateId);
    }

    /** `handleCloseCandidateDetail` closes it. */
    method HandleCloseCandidateDetail()
      modifies this
      ensures selectedCandidate == None
      ensures searchTerm == old(searchTerm) && selectedStatus == old(selectedStatus) && currentPage == old(currentPage)
      ensures selectedPosition == old(selectedPosition) && positionSearch == old(positionSearch)
      ensures showPositionDropdown == old(showPositionDropdown)
    {
      selectedCandidate := None;
    }
  }

  /** Because the page is not reset, a narrower search can leave the screen on a page
      past the last: on page 2, a search that leaves ten rows or fewer shows no row. */
  lemma StalePageShowsNothing(filtered: seq<Candidate>)
    requires |filtered| <= ItemsPerPage
    ensures PaginatedCandidates(filtered, 2) == []
  {
  }
}
