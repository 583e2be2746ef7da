/**
 * The interview schedule screen (src/pages/enterprise/Schedule.tsx): a month calendar
 * whose day selection filters the interview list, a search box over the candidate's
 * name, a status select, a position picker, and ten interviews a page.
 */
module Schedule {
  import opened Wrappers
  import opened JsStrings
  import opened Lists
  import opened Dates
  import CalendarEvents
  import Candidates

  /** The position a candidate applied for, as an interview refers to it. */
  datatype AppliedPosition = AppliedPosition(id: string, name: string)

  /** The candidate of an interview. */
  datatype InterviewCandidate = InterviewCandidate(
    id: string, name: string, currentPosition: string, company: string, applyPosition: AppliedPosition)

  /** A row of the interview list. `date` is the calendar day its date text stands for. */
  datatype Interview = Interview(
    id: string, date: Date, time: string, candidate: InterviewCandidate, interviewer: string,
    location: string, status: string)

  /** A position the picker offers. The picker's `filteredPositions` is the candidate
      list's, word for word, so it is `Candidates.FilteredPositions`. */
  type Position = Candidates.Position

  /** `ITEMS_PER_PAGE`. */
  const ItemsPerPage: nat := 10

  // ---------------------------------------------------------------------------
  // formatDate
  // ---------------------------------------------------------------------------

  /** `weekDays`, indexed by `getDay()` (0 is Sunday). */
  const WeekDayNames: seq<string> := ["周日", "周一", "周二", "周三", "周四", "周五", "周六"]

  /** `formatDate`: `{month + 1}月{day}日 {weekday}`. */
  function FormatDate(d: Date): (r: string)
    requires Valid(d)
  {
    IntToString(d.month + 1) + ("月" + (IntToString(d.day) + ("日 " + WeekDayNames[Weekday(d)])))
  }

  /** Reading the number at the start of `formatDate`'s text gives back the month counted
      from 1, reading the number after `月` gives back the day, and the text ends with
      `日 ` and the name of the day's weekday. */
  lemma FormatDateReadsBack(d: Date)
    requires Valid(d)
    ensures var r, k := FormatDate(d), |IntToString(d.month + 1)| + 1;
      && ParseInt(r) == Some(d.month + 1)
      && k <= |r| && ParseInt(r[k..]) == Some(d.day)
      && EndsWith(r, "日 " + WeekDayNames[Weekday(d)])
  {
    FormatDateMonth(d);
    FormatDateDay(d);
    FormatDateWeekday(d);
  }

  lemma FormatDateMonth(d: Date)
    requires Valid(d)
    ensures ParseInt(FormatDate(d)) == Some(d.month + 1)
  {
    var rest := "月" + (IntToString(d.day) + ("日 " + WeekDayNames[Weekday(d)]));
    assert FormatDate(d) == IntToString(d.month + 1) + rest;
    ReadsBackAt(d.month + 1, rest);
  }

  lemma FormatDateDay(d: Date)
    requires Valid(d)
    ensures var r, k := FormatDate(d), |IntToString(d.month + 1)| + 1;
      k <= |r| && ParseInt(r[k..]) == Some(d.day)
  {
    var month, tail := IntToString(d.month + 1), "日 " + WeekDayNames[Weekday(d)];
    var r := FormatDate(d);
    assert r == month + ("月" + (IntToString(d.day) + tail));
    assert r[|month| + 1..] == IntToString(d.day) + tail;
    ReadsBackAt(d.day, tail);
  }

  lemma FormatDateWeekday(d: Date)
    requires Valid(d)
    ensures EndsWith(FormatDate(d), "日 " + WeekDayNames[Weekday(d)])
  {
    var suffix := "日 " + WeekDayNames[Weekday(d)];
    var front := IntToString(d.month + 1) + ("月" + IntToString(d.day));
    assert FormatDate(d) == front + suffix;
    EndsWithSuffix(front, suffix);
  }

  /** A number followed by text that starts with a CJK character reads back as itself. */
  lemma ReadsBackAt(n: int, rest: string)
    requires rest != [] && rest[0] in {'月', '日'}
    ensures ParseInt(IntToString(n) + rest) == Some(n)
  {
    ParseIntOfIntToString(n, rest);
  }

  lemma EndsWithSuffix(s: string, t: string)
    ensures EndsWith(s + t, t)
  {
    assert (s + t)[|s + t| - |t|..] == t;
  }

  /** 1 March 2024 was a Friday. */
  lemma FormatDateExample()
    ensures FormatDate(Date(2024, 2, 1)) == "3月1日 周五"
  {
    KnownDays();
    assert IntToString(3) == "3" && IntToString(1) == "1";
  }

  // ---------------------------------------------------------------------------
  // The interview filter and its pages
  // ---------------------------------------------------------------------------

  /** An empty search box passes everything; otherwise the candidate's name must contain
      the term, ignoring case. */
  predicate MatchesSearch(i: Interview, searchTerm: string) {
    searchTerm == "" || IncludesIgnoringCase(i.candidate.name, searchTerm)
  }

  /** `'all'` passes every status; any other choice must equal the status. */
  predicate MatchesStatus(i: Interview, selectedStatus: string) {
    selectedStatus == "all" || i.status == selectedStatus
  }

  /** With no day selected every interview passes; otherwise the interview must fall on
      the selected calendar day (`toDateString` ignores the time of day). */
  predicate MatchesDate(i: Interview, selectedDate: Option<Date>) {
    selectedDate.None? || CalendarEvents.SameDay(i.date, selectedDate.value)
  }

  /** With no position picked every interview passes; otherwise the applied position's id
      must be the picked one's. */
  predicate MatchesPosition(i: Interview, selectedPosition: Option<Position>) {
    selectedPosition.None? || i.candidate.applyPosition.id == selectedPosition.value.id
  }

  predicate Shows(i: Interview, searchTerm: string, selectedStatus: string, selectedDate: Option<Date>,
                  selectedPosition: Option<Position>) {
    && MatchesSearch(i, searchTerm) && MatchesStatus(i, selectedStatus)
    && MatchesDate(i, selectedDate) && MatchesPosition(i, selectedPosition)
  }

  /** `filteredInterviews`: exactly the interviews that pass all four conditions, in the
      order of the list. */
  function FilteredInterviews(interviews: seq<Interview>, searchTerm: string, selectedStatus: string,
                              selectedDate: Option<Date>, selectedPosition: Option<Position>): (r: seq<Interview>)
    ensures forall k :: 0 <= k < |r| ==>
      r[k] in interviews && Shows(r[k], searchTerm, selectedStatus, selectedDate, selectedPosition)
    ensures forall k :: 0 <= k < |interviews| && Shows(interviews[k], searchTerm, selectedStatus, selectedDate, selectedPosition) ==>
      interviews[k] in r
    ensures IsSubsequence(r, interviews)
  {
    var shows := (i: Interview) => Shows(i, searchTerm, selectedStatus, selectedDate, selectedPosition);
    FilterIsSubsequence(interviews, shows);
    Filter(interviews, shows)
  }

  /** `paginatedInterviews`: `slice((currentPage - 1) * 10, currentPage * 10)`; at most ten
      rows, and empty exactly on pages past the last. */
  function PaginatedInterviews(filtered: seq<Interview>, currentPage: int): (r: seq<Interview>)
    ensures r == PageOf(filtered, currentPage, ItemsPerPage)
    ensures currentPage >= 1 ==> |r| <= ItemsPerPage
    ensures currentPage >= 1 ==> (r != [] <==> currentPage <= TotalPages(|filtered|, ItemsPerPage))
  {
    if currentPage >= 1 then
      PageContents(filtered, currentPage, ItemsPerPage);
      NonEmptyPagesExactly(filtered, currentPage, ItemsPerPage);
      Slice(filtered, (currentPage - 1) * ItemsPerPage, currentPage * ItemsPerPage)
    else
      Slice(filtered, (currentPage - 1) * ItemsPerPage, currentPage * ItemsPerPage)
  }

  /** Selecting a day shows that day's interviews of the unfiltered-by-day list and no
      others: the day filter is the calendar's own `getEventsForDate` test. */
  lemma SelectedDayShowsOnlyThatDay(interviews: seq<Interview>, searchTerm: string, selectedStatus: string,
                                   day: Date, selectedPosition: Option<Position>)
    ensures var r := FilteredInterviews(interviews, searchTerm, selectedStatus, Some(day), selectedPosition);
      && (forall k :: 0 <= k < |r| ==> r[k].date == day)
      && IsSubsequence(r, FilteredInterviews(interviews, searchTerm, selectedStatus, None, selectedPosition))
  {
    FilterStronger(interviews,
      (i: Interview) => Shows(i, searchTerm, selectedStatus, Some(day), selectedPosition),
      (i: Interview) => Shows(i, searchTerm, selectedStatus, None, selectedPosition));
  }

  /** The empty filters show every interview. */
  lemma NoFilterShowsAll(interviews: seq<Interview>)
    ensures FilteredInterviews(interviews, "", "all", None, None) == interviews
  {
    FilterAll(interviews, (i: Interview) => Shows(i, "", "all", None, None));
  }

  // ---------------------------------------------------------------------------
  // Selecting a day
  // ---------------------------------------------------------------------------

  /** The selection after clicking `date`: clicking the selected day again clears the
      selection, clicking any other day selects it. */
  function ToggleDate(selectedDate: Option<Date>, date: Date): (r: Option<Date>)
    ensures r.Some? <==> !(selectedDate.Some? && CalendarEvents.SameDay(selectedDate.value, date))
    ensures r.Some? ==> r.value == date
  {
    if selectedDate.Some? && CalendarEvents.SameDay(selectedDate.value, date) then None else Some(date)
  }

  /** Clicking a day twice from no selection ends with no selection; clicking two
      different days leaves the second selected. */
  lemma ToggleTwice(date: Date, other: Date)
    requires other != date
    ensures ToggleDate(ToggleDate(None, date), date) == None
    ensures ToggleDate(ToggleDate(None, date), other) == Some(other)
  {
  }

  // ---------------------------------------------------------------------------
  // The screen's state
  // ---------------------------------------------------------------------------

  class ScheduleScreen {
    const interviews: seq<Interview>
    var selectedDate: Option<Date>
    var searchTerm: string
    var selectedStatus: string
    var currentPage: int
    var isModalOpen: bool
    var positionSearch: string
    var showPositionDropdown: bool
    var selectedPosition: Option<Position>

    /** Pages are counted from 1. */
    ghost predicate Valid()
      reads this
    {
      currentPage >= 1
    }

    constructor(interviews: seq<Interview>)
      ensures Valid() && this.interviews == interviews
      ensures selectedDate == None && searchTerm == "" && selectedStatus == "all" && currentPage == 1
      ensures !isModalOpen && positionSearch == "" && !showPositionDropdown && selectedPosition == None
    {
      this.interviews := interviews;
      selectedDate := None;
      searchTerm := "";
      selectedStatus := "all";
      currentPage := 1;
      isModalOpen := false;
      positionSearch := "";
      showPositionDropdown := false;
      selectedPosition := None;
    }

    /** The rows of the list. */
    function Visible(): seq<Interview>
      reads this
    {
      FilteredInterviews(interviews, searchTerm, selectedStatus, selectedDate, selectedPosition)
    }

    /** `handleDateSelect`: toggles the day and goes back to page 1. */
    method HandleDateSelect(date: Date)
      modifies this
      ensures Valid()
      ensures selectedDate == ToggleDate(old(selectedDate), date) && currentPage == 1
      ensures searchTerm == old(searchTerm) && selectedStatus == old(selectedStatus)
      ensures selectedPosition == old(selectedPosition) && positionSearch == old(positionSearch)
      ensures isModalOpen == old(isModalOpen) && showPositionDropdown == old(showPositionDropdown)
    {
      if selectedDate.Some? && CalendarEvents.SameDay(selectedDate.value, date) {
        selectedDate := None;
      } else {
        selectedDate := Some(date);
      }
      currentPage := 1;
    }

    /** Typing in the search box changes the term and goes back to page 1. */
    method SearchChange(value: string)
      modifies this
      ensures Valid()
      ensures searchTerm == value && currentPage == 1
      ensures selectedDate == old(selectedDate) && selectedStatus == old(selectedStatus)
      ensures selectedPosition == old(selectedPosition) && positionSearch == old(positionSearch)
      ensures isModalOpen == old(isModalOpen) && showPositionDropdown == old(showPositionDropdown)
    {
      searchTerm := value;
      currentPage := 1;
    }

    /** Choosing a status changes it and goes back to page 1. */
    method StatusChange(value: string)
      modifies this
      ensures Valid()
      ensures selectedStatus == value && currentPage == 1
      ensures selectedDate == old(selectedDate) && searchTerm == old(searchTerm)
      ensures selectedPosition == old(selectedPosition) && positionSearch == old(positionSearch)
      ensures isModalOpen == old(isModalOpen) && showPositionDropdown == old(showPositionDropdown)
    {
      selectedStatus := value;
      currentPage := 1;
    }

    /** `handlePositionSelect`: the position is picked, its name goes into the picker's
        box and the dropdown closes; the page is kept. */
    method HandlePositionSelect(position: Position)
      modifies this
      ensures selectedPosition == Some(position) && positionSearch == position.name && !showPositionDropdown
      ensures currentPage == old(currentPage) && selectedDate == old(selectedDate)
      ensures searchTerm == old(searchTerm) && selectedStatus == old(selectedStatus) && isModalOpen == old(isModalOpen)
    {
      selectedPosition := Some(position);
      positionSearch := position.name;
      showPositionDropdown := false;
    }

    /** `handleClearPosition`: no position is picked and the picker's box is emptied. */
    method HandleClearPosition()
      modifies this
      ensures selectedPosition == None && positionSearch == ""
      ensures showPositionDropdown == old(showPositionDropdown) && currentPage == old(currentPage)
      ensures selectedDate == old(selectedDate) && searchTerm == old(searchTerm)
      ensures selectedStatus == old(selectedStatus) && isModalOpen == old(isModalOpen)
    {
      selectedPosition := None;
      positionSearch := "";
    }

    /** Typing in the picker's box opens the dropdown; emptying it drops the picked
        position. */
    method PositionSearchChange(value: string)
      modifies this
      ensures positionSearch == value && showPositionDropdown
      ensures selectedPosition == if value == "" then None else old(selectedPosition)
      ensures currentPage == old(currentPage) && selectedDate == old(selectedDate)
      ensures searchTerm == old(searchTerm) && selectedStatus == old(selectedStatus) && isModalOpen == old(isModalOpen)
    {
      positionSearch := value;
      showPositionDropdown := true;
      if value == "" {
        selectedPosition := None;
      }
    }

    /** The pagination bar's `onPageChange`; the bar only offers pages from 1. */
    method PageChange(page: int)
      requires page >= 1
      modifies this
      ensures Valid() && currentPage == page
      ensures selectedDate == old(selectedDate) && searchTerm == old(searchTerm) && selectedStatus == old(selectedStatus)
      ensures selectedPosition == old(selectedPosition) && positionSearch == old(positionSearch)
      ensures isModalOpen == old(isModalOpen) && showPositionDropdown == old(showPositionDropdown)
    {
      currentPage := page;
    }

    /** `handleInterviewSubmit` closes the scheduling dialog. */
    method HandleInterviewSubmit()
      modifies this
      ensures !isModalOpen
      ensures currentPage == old(currentPage) && selectedDate == old(selectedDate) && searchTerm == old(searchTerm)
      ensures selectedStatus == old(selectedStatus) && selectedPosition == old(selectedPosition)
      ensures positionSearch == old(positionSearch) && showPositionDropdown == old(showPositionDropdown)
    {
      isModalOpen := false;
    }
  }
}
