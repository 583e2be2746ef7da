/**
 * The position list screen (src/pages/enterprise/positions/Positions.tsx): a search box
 * over title, department and location, an open/closed select, and ten positions a page.
 */
module Positions {
  import opened JsStrings
  import opened Lists

  /** `'active' | 'closed'`. */
  datatype PositionStatus = Active | Closed

  /** A row of the position list. */
  datatype Position = Position(
    id: string, title: string, department: string, kind: string, location: string, salary: string,
    status: PositionStatus, applicantsCount: int, interviewingCount: int)

  /** `ITEMS_PER_PAGE`. */
  const ItemsPerPage: nat := 10

  /** The text the status select sends for each status. */
  function StatusValue(s: PositionStatus): (r: string)
    ensures r != "all"
  {
    match s
    case Active => "active"
    case Closed => "closed"
  }

  /** The search box matches the title, department or location, ignoring case. */
  predicate MatchesSearch(p: Position, searchTerm: string) {
    || IncludesIgnoringCase(p.title, searchTerm)
    || IncludesIgnoringCase(p.department, searchTerm)
    || IncludesIgnoringCase(p.location, searchTerm)
  }

  /** The status condition as written: `'all'`, or `'active'` with an active position,
      or `'closed'` with a closed one. */
  predicate MatchesStatus(p: Position, selectedStatus: string) {
    || selectedStatus == "all"
    || (selectedStatus == "active" && p.status == Active)
    || (selectedStatus == "closed" && p.status == Closed)
  }

  /** The three-way condition is the plain "all or equal" test every other list uses. */
  lemma StatusConditionIsEquality(p: Position, selectedStatus: string)
    ensures MatchesStatus(p, selectedStatus) <==> selectedStatus == "all" || selectedStatus == StatusValue(p.status)
  {
  }

  predicate Shows(p: Position, searchTerm: string, selectedStatus: string) {
    MatchesSearch(p, searchTerm) && MatchesStatus(p, selectedStatus)
  }

  /** `filteredPositions`: exactly the positions that pass search and status, in the
      order of the list. */
  function FilteredPositions(positions: seq<Position>, searchTerm: string, selectedStatus: string): (r: seq<Position>)
    ensures forall i :: 0 <= i < |r| ==> r[i] in positions && Shows(r[i], searchTerm, selectedStatus)
    ensures forall i :: 0 <= i < |positions| && Shows(positions[i], searchTerm, selectedStatus) ==> positions[i] in r
    ensures IsSubsequence(r, positions)
  {
    var shows := (p: Position) => Shows(p, searchTerm, selectedStatus);
    FilterIsSubsequence(positions, shows);
    Filter(positions, shows)
  }

  /** `paginatedPositions`: the slice from `(currentPage - 1) * 10`, ten rows long; empty
      exactly on pages past the last. */
  function PaginatedPositions(filtered: seq<Position>, currentPage: int): (r: seq<Position>)
    ensures r == PageOf(filtered, currentPage, ItemsPerPage)
    ensures currentPage >= 1 ==> |r| <= ItemsPerPage
    ensures currentPage >= 1 ==> (r != [] <==> currentPage <= TotalPages(|filtered|, ItemsPerPage))
  {
    var startIndex := (currentPage - 1) * ItemsPerPage;
    if currentPage >= 1 then
      PageContents(filtered, currentPage, ItemsPerPage);
      NonEmptyPagesExactly(filtered, currentPage, ItemsPerPage);
      Slice(filtered, startIndex, startIndex + ItemsPerPage)
    else
      Slice(filtered, startIndex, startIndex + ItemsPerPage)
  }

  /** An empty search with `'all'` shows every position. */
  lemma NoFilterShowsAll(positions: seq<Position>)
    ensures FilteredPositions(positions, "", "all") == positions
  {
    forall i | 0 <= i < |positions| ensures Shows(positions[i], "", "all") {
      EmptyIncludedIgnoringCase(positions[i].title);
    }
    FilterAll(positions, (p: Position) => Shows(p, "", "all"));
  }

  /** The open and the closed positions of a search, taken together, are the positions
      the search shows under `'all'`, each in exactly one of the two. */
  lemma StatusChoicesPartition(positions: seq<Position>, searchTerm: string)
    ensures var all := FilteredPositions(positions, searchTerm, "all");
      forall p :: p in all <==> p in FilteredPositions(positions, searchTerm, "active") || p in FilteredPositions(positions, searchTerm, "closed")
    ensures forall p :: !(p in FilteredPositions(positions, searchTerm, "active") && p in FilteredPositions(positions, searchTerm, "closed"))
  {
    var all := FilteredPositions(positions, searchTerm, "all");
    var active := FilteredPositions(positions, searchTerm, "active");
    var closed := FilteredPositions(positions, searchTerm, "closed");
    forall p ensures p in all <==> p in active || p in closed {
      if p in all {
        var i :| 0 <= i < |positions| && positions[i] == p;
      }
      if p in active {
        var i :| 0 <= i < |positions| && positions[i] == p;
      }
      if p in closed {
        var i :| 0 <= i < |positions| && positions[i] == p;
      }
    }
  }
}
