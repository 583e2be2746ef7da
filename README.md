# A verified model of the HR-management front end's logic

This project models the deterministic logic of a mock-data React front end for human-resources management. The front end has two portals. The enterprise portal lists candidates, interviews and positions, and holds the settings screens. The administrators' portal lists customer enterprises.

Most of the front end is markup. The logic that remains falls into six groups:

- paging and the windowed page-number row;
- two month calendars;
- the form validators with their error records;
- the picked-people lists of the interview dialogs;
- small state machines: candidate status, analysis phases and UI toggles;
- string classifiers: Markdown-like line rendering, sidebar route highlighting, the career-path strip and the truncated-cell width.

Layout:

- There is one module per source component, named after the component: `Pagination`, `GridCalendar` (src/components/Calendar.tsx), `ListCalendar` (src/components/Calendar/Calendar.tsx), `Candidates`, `Positions`, `EnterpriseList`, `Schedule`, `CompetencyEditModal`, `UserFormModal`, `LocationFormModal`, `EnterpriseForm`, `ProfileSettings`, `UserSettings`, `AddUserModal`, `DepartmentFormModal`, `CandidateForm`, `EditInterviewModal`, `InterviewModal`, `EditInterviewersModal`, `DepartmentSettings`, `CandidateProfile`, `InterviewDetailContent`, `PositionDetail`, `CareerPath`, `EnterprisePortal`, `AdminPortal`, `EnterpriseSettings` and `TruncatedField`.
- Shared helper modules model the JavaScript library behaviour the components rely on:
  - `Wrappers`: an `Option` type;
  - `JsStrings`: `trim`, `toLowerCase`, `includes`, `startsWith`, `endsWith`, `split`, `join` and `parseInt`;
  - `Lists`: `filter`, `slice` and paging;
  - `Dates`: the proleptic Gregorian calendar and `new Date(y, m, d)` normalisation;
  - `CalendarEvents`: per-day event matching;
  - `MarkdownLines`: line-by-line rendering;
  - `SelectionLists`: removal and key uniqueness.
  - `AccountChecks` holds the profile and password checks. The two personal-settings screens write these checks identically.

How the source maps onto Dafny:

- A component's React state becomes a `class`. Its `useState` fields are the class's fields. Each handler becomes a method that states the whole new state.
- A pure computation (a `useMemo` filter, a validator, a classifier) becomes a function. Lemmas prove its properties.
- A loop in the source becomes a `method` with the loop and its invariants, proved against a specification function. These loops are `getPageNumbers` and the three day-list builders of the list calendar.
- A validator becomes an error record: a `map` from the form's fields to messages. A per-field function gives the message, and a lemma states when the record is empty.

With five pages and the first one current, the page row is `1 2 3 … 5`. Besides the first and the last page, only pages within two of the current one get a button (`Pagination.ExampleRows`).

## Model

| member | source | states |
|---|---|---|
| Pagination.GetPageNumbers | src/components/Pagination.tsx:29-46 | the loop over pages `1..totalPages`: no pages give an empty row; otherwise the row starts with page 1 and ends with the last page, has a button for exactly the first, the last and every page within two of the current one, neighbouring buttons are consecutive pages, and each run of skipped pages is one `...` between two buttons |
| Pagination.ItemsUpToShape | src/components/Pagination.tsx:33-43 | the loop invariant: after pages `1..k` the row starts at page 1, holds exactly the shown pages up to `k`, and ends with page `k` or with one `...` after a lower page |
| Pagination.AppendPageStep | src/components/Pagination.tsx:34-39 | pushing a shown page keeps the invariant |
| Pagination.SkipStep | src/components/Pagination.tsx:40 | a skipped page after a `...` leaves the row as it is and keeps the invariant |
| Pagination.AppendEllipsisStep | src/components/Pagination.tsx:40-42 | the first skipped page of a run pushes one `...` and keeps the invariant |
| Pagination.PageNumbersShape | src/components/Pagination.tsx:33-45 | the whole row has that shape whenever there is at least one page |
| Pagination.CurrentPageHasButton | src/components/Pagination.tsx:37-39 | an existing current page always has its own button |
| Pagination.ExampleRows | src/components/Pagination.tsx:33-43 | five pages seen from page 1 give `1 2 3 ... 5`; ten pages from page 5 give `1 ... 3 4 5 6 7 ... 10`; three pages from page 2 give `1 2 3`; no pages give nothing |
| Pagination.CaptionMatchesPage | src/components/Pagination.tsx:25-26 | on a page that has rows, `startItem..endItem` lies in `1..totalItems` and names exactly the rows `slice((page-1)*size, page*size)` shows |
| Pagination.ArrowsStayInRange | src/components/Pagination.tsx:65-80 | on a page of a non-empty list an enabled arrow moves to a page that exists |
| Pagination.NextEnabledOnEmptyList | src/components/Pagination.tsx:119-123 | with no rows there are no pages, yet page 1 reads "1 - 0" and leaves "next" enabled, and page 2's caption reads "11 - 0" |
| Pagination.NextCorrectedStaysInRange | src/components/Pagination.tsx:119-123 | the corrected guard `current >= total` never lets "next" leave the existing pages and agrees with the written guard on every page of a non-empty list |
| Lists.TotalPages | src/components/Pagination.tsx:24 | `Math.ceil(total / size)`: the least page count whose pages hold every row |
| Lists.Slice | src/pages/enterprise/Candidates.tsx:164-168 | JavaScript `slice`: a negative bound counts from the end, both bounds are clipped to the list, and the result is the run of elements from the clipped begin, as long as the gap to the clipped end and empty when there is none |
| Lists.SliceWhole | src/pages/enterprise/Candidates.tsx:164-168 | slicing from 0 to the length copies the whole list |
| Lists.SliceAdjacent | src/pages/enterprise/Candidates.tsx:164-168 | two adjacent slices joined are the slice over both ranges |
| Lists.SliceEmpty | src/pages/enterprise/Candidates.tsx:164-168 | a begin at or past the end, or an end at or before the begin, gives nothing |
| Lists.SliceNegativeBegin | src/pages/enterprise/Candidates.tsx:164-168 | a negative begin counts from the end (`[1, 2, 3].slice(-1, 3)` is `[3]`) and is clipped to the front when it reaches past it |
| Lists.PageContents | src/pages/enterprise/Candidates.tsx:164-168 | a page holds at most `size` rows, exactly the rows of its index range |
| Lists.NonEmptyPagesExactly | src/pages/enterprise/Candidates.tsx:164-168 | a page from 1 has rows exactly when it is at most `totalPages` |
| Lists.PagesCoverList | src/pages/enterprise/Candidates.tsx:164-168 | reading pages `1..totalPages` in turn gives the whole filtered list once, in order |
| Lists.Filter | src/pages/enterprise/Candidates.tsx:149-162 | `Array.filter`: exactly the elements that pass, in their order |
| Lists.FilterCounts | src/pages/enterprise/Candidates.tsx:149-162 | each passing element is kept as often as it occurs, and a failing one not at all |
| Lists.FilterStronger | src/pages/enterprise/Candidates.tsx:149-162 | a stricter test keeps a subsequence of what a weaker test keeps |
| Dates.DaysInMonth | src/components/Calendar.tsx:27-28 | 28 to 31 days; February has 29 exactly in a leap year |
| Dates.YearLength | src/components/Calendar.tsx:27-28 | the day count from the epoch gives 366-day leap years and 365-day other years |
| Dates.LastDayOfMonth | src/components/Calendar.tsx:27-28 | `new Date(y, m + 1, 0)` is the last day of month `m` |
| Dates.MakeDateOfValid | src/components/Calendar.tsx:34 | `new Date(y, m, d)` with the fields in range is that very day |
| Dates.FirstOfNextMonth | src/components/Calendar/Calendar.tsx:106 | `new Date(y, m + 1, 1)` is the first of the next month, January after December |
| Dates.FirstOfPreviousMonth | src/components/Calendar/Calendar.tsx:34 | `new Date(y, m - 1, 1)` is the first of the previous month, December before January |
| Dates.DayNumberInjective | src/components/Calendar.tsx:68-76 | two valid dates are the same calendar day exactly when their day counts agree |
| Dates.WeekdayOffset | src/components/Calendar.tsx:24 | days `k` apart are `k mod 7` apart in the week |
| Dates.KnownDays | src/components/Calendar.tsx:24-28 | 1 March 2024 is a Friday, 1 January 2023 a Sunday, February 2024 has 29 days and February 2023 28 |
| Dates.JanuaryThirtyFirstPlusOneMonth | src/components/Calendar.tsx:55-65 | 31 January 2023 moved to February rolls over to 3 March 2023 |
| CalendarEvents.EventsOn | src/components/Calendar.tsx:38-47 | `getEventsForDate` (in both calendars): the events on that calendar day and no others, in the order given |
| CalendarEvents.EventLabel | src/components/Calendar.tsx:164 | an event's line is its time up to the first `-`, a space and its title |
| GridCalendar.TotalDays | src/components/Calendar.tsx:27-28 | `totalDays` is the number of days of the month on show |
| GridCalendar.GridLayout | src/components/Calendar.tsx:23-35 | 42 cells: as many blanks as the weekday of the 1st, then every day of the month in order, then blanks; each day sits in the column of its weekday, Sunday first |
| GridCalendar.AtMostOneSelectedCell | src/components/Calendar.tsx:68-70 | at most one cell of the grid is ever marked selected (or as today) |
| GridCalendar.Summarize | src/components/Calendar.tsx:150-171 | the badge shows the count exactly when there is an event; the first two events are listed under their labels; the line `+N 更多` appears exactly when there are more than two, N reads back as the number left out |
| GridCalendar.NavigateNextSkipsFebruary | src/components/Calendar.tsx:55-65 | from 31 January 2023 "next" as written shows March 2023 |
| GridCalendar.StepMonthIsAdjacentMonth | src/components/Calendar.tsx:55-65 | moving to the first of the month one step away gives the next or the previous month, whatever the day |
| GridCalendar.MonthView.NavigateMonth | src/components/Calendar.tsx:55-65 | `navigateMonth` as written: `setMonth(month ± 1)` with the day kept, and the date stays valid |
| GridCalendar.MonthView.NavigateMonthCorrected | src/components/Calendar.tsx:55-65 | the corrected navigation always shows the next or the previous month |
| ListCalendar.GetDaysInMonth | src/components/Calendar/Calendar.tsx:22-24 | the number of days of the date's month |
| ListCalendar.GetFirstDayOfMonth | src/components/Calendar/Calendar.tsx:27-29 | the weekday of the 1st of the date's month |
| ListCalendar.GetPreviousMonthDays | src/components/Calendar/Calendar.tsx:32-46 | the loop pushes the last `firstDay` days of the previous month, oldest first and ending on its last day, none flagged current |
| ListCalendar.GetCurrentMonthDays | src/components/Calendar/Calendar.tsx:49-61 | the loop pushes days 1 to the last of the month, each flagged current |
| ListCalendar.GetNextMonthDays | src/components/Calendar/Calendar.tsx:64-77 | the loop pushes days `1..6 - weekday(last day)` of the next month, none flagged current |
| ListCalendar.PreviousDaysAreConsecutive | src/components/Calendar/Calendar.tsx:32-46 | the leading cells are consecutive days ending the day before the 1st, outside the month on show |
| ListCalendar.CurrentDaysAreConsecutive | src/components/Calendar/Calendar.tsx:49-61 | the month's own cells are consecutive days from the 1st |
| ListCalendar.NextDaysAreConsecutive | src/components/Calendar/Calendar.tsx:64-77 | the trailing cells are consecutive days from the day after the last, outside the month on show |
| ListCalendar.AllDaysLength | src/components/Calendar/Calendar.tsx:80-86 | the grid holds 28, 35 or 42 cells, whole weeks |
| ListCalendar.AllDaysConsecutive | src/components/Calendar/Calendar.tsx:80-86 | cell `k` is the `k`-th day after the Sunday that opens the first row |
| ListCalendar.AllDaysCurrentFlag | src/components/Calendar/Calendar.tsx:80-86 | a cell is flagged current exactly when its day is in the month on show |
| ListCalendar.AllDaysShape | src/components/Calendar/Calendar.tsx:80-86 | the cells run through consecutive days, cell `k` on weekday `k mod 7`, ending on a Saturday, flagged current exactly inside the month |
| ListCalendar.DayEventLines | src/components/Calendar/Calendar.tsx:183-197 | every event of the day is listed under its label, none left out |
| ListCalendar.MonthChangesCompose | src/components/Calendar/Calendar.tsx:105-107 | stepping the month by `a` then `b` is stepping by `a + b`; twelve forward and twelve back return to the 1st of the same month |
| ListCalendar.CalendarView.constructor | src/components/Calendar/Calendar.tsx:18-19 | the month on show is the given selection or today, and the selection is the given one |
| ListCalendar.CalendarView.GetAllDays | src/components/Calendar/Calendar.tsx:80-86 | the three loops' cells in order |
| ListCalendar.CalendarView.HandleDateSelect | src/components/Calendar/Calendar.tsx:99-102 | the day becomes the selection and is reported when a callback is given; the month on show stays |
| ListCalendar.CalendarView.HandleMonthChange | src/components/Calendar/Calendar.tsx:105-107 | the month on show becomes the first of the month `increment` months away; the selection stays |
| Candidates.FilteredPositions | src/pages/enterprise/Candidates.tsx:130-136 | the picker lists exactly the positions whose name or department contains the typed text ignoring case, in their order; the schedule screen's position picker (src/pages/enterprise/Schedule.tsx, lines 150-156) is the same filter |
| Candidates.EmptyPositionSearchOffersAll | src/pages/enterprise/Candidates.tsx:130-136 | with nothing typed every position is offered |
| Candidates.FilteredCandidates | src/pages/enterprise/Candidates.tsx:149-162 | exactly the candidates whose name or e-mail contains the search ignoring case or whose phone contains it as typed, with the chosen status (or any for `'all'`) and the picked position's name (or any), in list order |
| Candidates.PaginatedCandidates | src/pages/enterprise/Candidates.tsx:164-167 | the page slice: at most ten rows, and empty exactly on pages past the last |
| Candidates.NoFilterShowsAll | src/pages/enterprise/Candidates.tsx:149-162 | with no search, status `'all'` and no position the whole list shows |
| Candidates.NarrowingHidesRows | src/pages/enterprise/Candidates.tsx:156-161 | choosing a status or a position only hides rows |
| Candidates.CandidatesScreen.constructor | src/pages/enterprise/Candidates.tsx:105-111 | nothing typed, status `'all'`, page 1, nothing picked, no profile open |
| Candidates.CandidatesScreen.HandlePositionSelect | src/pages/enterprise/Candidates.tsx:138-142 | the position is picked, its name fills the picker and the dropdown closes; the rest stays |
| Candidates.CandidatesScreen.HandleClearPosition | src/pages/enterprise/Candidates.tsx:144-147 | no position is picked and the picker is emptied; the rest stays |
| Candidates.CandidatesScreen.PositionSearchChange | src/pages/enterprise/Candidates.tsx:209-215 | typing opens the dropdown; emptying the box drops the picked position |
| Candidates.CandidatesScreen.SearchChange | src/pages/enterprise/Candidates.tsx:197 | only the search term changes; the page is not reset |
| Candidates.CandidatesScreen.StatusChange | src/pages/enterprise/Candidates.tsx:254 | only the status changes; the page is not reset |
| Candidates.CandidatesScreen.PageChange | src/pages/enterprise/Candidates.tsx:328 | only the page changes |
| Candidates.CandidatesScreen.HandleCandidateClick | src/pages/enterprise/Candidates.tsx:170-172 | the candidate's profile opens |
| Candidates.CandidatesScreen.HandleCloseCandidateDetail | src/pages/enterprise/Candidates.tsx:174-176 | the profile closes |
| Candidates.StalePageShowsNothing | src/pages/enterprise/Candidates.tsx:164-167 | since the page is kept, page 2 of a search that leaves ten rows or fewer shows no row |
| Positions.StatusValue | src/pages/enterprise/positions/Positions.tsx:175-177 | the text each status option sends, never `'all'` |
| Positions.StatusConditionIsEquality | src/pages/enterprise/positions/Positions.tsx:124-126 | the three-way status condition is the plain "`'all'` or equal" test |
| Positions.FilteredPositions | src/pages/enterprise/positions/Positions.tsx:117-130 | exactly the positions whose title, department or location contains the search ignoring case and whose status passes, in list order |
| Positions.PaginatedPositions | src/pages/enterprise/positions/Positions.tsx:132-135 | the page slice: at most ten rows, and empty exactly on pages past the last |
| Positions.NoFilterShowsAll | src/pages/enterprise/positions/Positions.tsx:117-130 | an empty search with `'all'` shows every position |
| Positions.StatusChoicesPartition | src/pages/enterprise/positions/Positions.tsx:124-126 | the open and the closed positions of a search together are what `'all'` shows, and none is in both |
| EnterpriseList.FilteredEnterprises | src/pages/admin/enterprises/EnterpriseList.tsx:21-32 | exactly the enterprises whose name, industry or location contains the search ignoring case and whose status passes, in list order |
| EnterpriseList.PaginatedEnterprises | src/pages/admin/enterprises/EnterpriseList.tsx:34-37 | the page slice: at most fifteen rows, and empty exactly on pages past the last |
| EnterpriseList.NoFilterShowsAll | src/pages/admin/enterprises/EnterpriseList.tsx:21-32 | an empty search with `'all'` shows every enterprise |
| EnterpriseList.StatusHidesRows | src/pages/admin/enterprises/EnterpriseList.tsx:28 | choosing a status only hides rows |
| EnterpriseList.StatusBadgeStyle | src/pages/admin/enterprises/EnterpriseList.tsx:44-55 | green, blue and red for formal, trial and expired; gray exactly for any other text |
| EnterpriseList.StatusText | src/pages/admin/enterprises/EnterpriseList.tsx:57-68 | the Chinese labels of the three statuses; any other text is shown as it is |
| EnterpriseList.BadgeAgreesWithText | src/pages/admin/enterprises/EnterpriseList.tsx:44-68 | the badge is gray exactly when the text is the raw status, and the three statuses get three colours and three labels |
| Schedule.FormatDateReadsBack | src/pages/enterprise/Schedule.tsx:81-86 | `formatDate`'s text starts with the month counted from 1, has the day after `月`, and ends with `日 ` and the weekday's name (Sunday first) |
| Schedule.FormatDateMonth | src/pages/enterprise/Schedule.tsx:85 | the number at the start is the month counted from 1 |
| Schedule.FormatDateDay | src/pages/enterprise/Schedule.tsx:85 | the number after `月` is the day of the month |
| Schedule.FormatDateWeekday | src/pages/enterprise/Schedule.tsx:83-85 | the text ends with `日 ` and the name of the day's weekday |
| Schedule.FormatDateExample | src/pages/enterprise/Schedule.tsx:81-86 | 1 March 2024 is shown as `3月1日 周五` |
| Schedule.FilteredInterviews | src/pages/enterprise/Schedule.tsx:105-121 | exactly the interviews that pass search (empty, or the candidate's name contains it ignoring case), status, calendar day and picked position id, in list order |
| Schedule.PaginatedInterviews | src/pages/enterprise/Schedule.tsx:124-129 | the page slice: at most ten rows, and empty exactly on pages past the last |
| Schedule.SelectedDayShowsOnlyThatDay | src/pages/enterprise/Schedule.tsx:113-114 | with a day selected only that day's interviews show, a subsequence of what shows with no day |
| Schedule.NoFilterShowsAll | src/pages/enterprise/Schedule.tsx:105-121 | the initial filters show every interview |
| Schedule.ToggleDate | src/pages/enterprise/Schedule.tsx:89-96 | clicking the selected day clears the selection; clicking any other day selects it |
| Schedule.ToggleTwice | src/pages/enterprise/Schedule.tsx:89-96 | clicking a day twice ends with no selection; clicking a second day selects the second |
| Schedule.ScheduleScreen.constructor | src/pages/enterprise/Schedule.tsx:69-78 | no day, no search, status `'all'`, page 1, no dialog, no position |
| Schedule.ScheduleScreen.HandleDateSelect | src/pages/enterprise/Schedule.tsx:89-96 | the day is toggled and the page goes back to 1; nothing else changes |
| Schedule.ScheduleScreen.SearchChange | src/pages/enterprise/Schedule.tsx:210-213 | the term changes and the page goes back to 1 |
| Schedule.ScheduleScreen.StatusChange | src/pages/enterprise/Schedule.tsx:271-274 | the status changes and the page goes back to 1 |
| Schedule.ScheduleScreen.HandlePositionSelect | src/pages/enterprise/Schedule.tsx:159-163 | the position is picked, its name fills the picker and the dropdown closes; the page is kept |
| Schedule.ScheduleScreen.HandleClearPosition | src/pages/enterprise/Schedule.tsx:166-169 | no position is picked and the picker is emptied |
| Schedule.ScheduleScreen.PositionSearchChange | src/pages/enterprise/Schedule.tsx:226-232 | typing opens the dropdown; emptying the box drops the picked position |
| Schedule.ScheduleScreen.PageChange | src/pages/enterprise/Schedule.tsx:342 | only the page changes |
| Schedule.ScheduleScreen.HandleInterviewSubmit | src/pages/enterprise/Schedule.tsx:99-102 | the scheduling dialog closes; the filters stay |
| CompetencyEditModal.Clamp | src/components/CompetencyEditModal.tsx:36 | `Math.min(100, Math.max(0, n))`: always in `0..100`, `n` itself inside that range, 0 below and 100 above |
| CompetencyEditModal.ParsedWeight | src/components/CompetencyEditModal.tsx:33 | `parseInt(value) \|\| 0`: the number the text starts with, or 0 when it starts with none |
| CompetencyEditModal.ParsedWeightOfShownWeight | src/components/CompetencyEditModal.tsx:99-100 | the number a weight field shows reads back as that weight |
| CompetencyEditModal.Keys | src/components/CompetencyEditModal.tsx:35-37 | the dimensions' keys, in order |
| CompetencyEditModal.UpdateWeight | src/components/CompetencyEditModal.tsx:34-38 | the dimension with the key gets the clamped weight, every other dimension stays as it is, the order is kept |
| CompetencyEditModal.UpdateDescription | src/components/CompetencyEditModal.tsx:43-47 | only the description of the dimension with the key changes; no weight changes |
| CompetencyEditModal.SameWeightsSameTotal | src/components/CompetencyEditModal.tsx:53 | `reduce` over lists with the same weights position by position gives the same total |
| CompetencyEditModal.DescriptionKeepsTotal | src/components/CompetencyEditModal.tsx:42-53 | a description edit never changes the total |
| CompetencyEditModal.WeightEditOfUnknownKey | src/components/CompetencyEditModal.tsx:34-38 | a weight edit for a key no dimension has changes nothing |
| CompetencyEditModal.WeightEditTotal | src/components/CompetencyEditModal.tsx:32-53 | with distinct keys a weight edit moves the total by exactly the change of that one weight |
| CompetencyEditModal.KeysOfTail | src/components/CompetencyEditModal.tsx:35-37 | distinct keys stay distinct in the rest of the list, and the first key is not among them |
| CompetencyEditModal.TotalError | src/components/CompetencyEditModal.tsx:55 | the message starts with the fixed text, ends with `%`, and the number after the fixed text reads back as the total |
| CompetencyEditModal.AfterPrefix | src/components/CompetencyEditModal.tsx:55 | a text after a prefix is cut out again by `slice(prefix.length)` |
| CompetencyEditModal.Submit | src/components/CompetencyEditModal.tsx:50-61 | saving is refused exactly when the weights do not add up to 100, with a message naming the total; otherwise the dimensions go on unchanged |
| CompetencyEditModal.Editor.constructor | src/components/CompetencyEditModal.tsx:27-28 | the given dimensions and no error |
| CompetencyEditModal.Editor.HandleWeightChange | src/components/CompetencyEditModal.tsx:32-40 | the weight update, and the error is cleared |
| CompetencyEditModal.Editor.HandleDescriptionChange | src/components/CompetencyEditModal.tsx:42-48 | the description update; the error stays |
| CompetencyEditModal.Editor.HandleSubmit | src/components/CompetencyEditModal.tsx:50-61 | a total other than 100 shows its message and hands nothing on; a total of 100 hands the dimensions to `onSubmit` and closes |
| UserFormModal.EmailPatternIsRegex | src/pages/enterprise/settings/UserFormModal.tsx:76 | the form's e-mail test accepts exactly the strings `/^[^\s@]+@[^\s@]+\.[^\s@]+$/` matches: non-empty runs without white space or `@` around one `@` and a later `.` |
| UserFormModal.EmailPatternRejectsPadding | src/pages/enterprise/settings/UserFormModal.tsx:74-77 | an address with leading or trailing white space is refused as invalid, because the pattern sees the untrimmed text |
| UserFormModal.EmailAccepted | src/pages/enterprise/settings/UserFormModal.tsx:76 | `a@b.c` passes the e-mail pattern |
| UserFormModal.EmailWithoutDotRejected | src/pages/enterprise/settings/UserFormModal.tsx:76 | a domain without a dot fails the e-mail pattern |
| UserFormModal.EmailDotAfterAtRejected | src/pages/enterprise/settings/UserFormModal.tsx:76 | a dot right after the `@` does not satisfy the pattern |
| UserFormModal.EmailTwoAtSignsRejected | src/pages/enterprise/settings/UserFormModal.tsx:76 | a second `@` fails the e-mail pattern |
| UserFormModal.PhonePatternValue | src/pages/enterprise/settings/UserFormModal.tsx:81 | a number matching `/^1[3-9]\d{9}$/` reads as an integer from 13000000000 to 19999999999 |
| UserFormModal.PhoneExamples | src/pages/enterprise/settings/UserFormModal.tsx:81 | an eleven-digit number starting `13` passes; a second digit 2, a leading space or ten digits fail |
| UserFormModal.FieldError | src/pages/enterprise/settings/UserFormModal.tsx:62-89 | each field is flagged exactly when it is blank after trimming; the e-mail and phone also when they fail their patterns |
| UserFormModal.ValidateForm | src/pages/enterprise/settings/UserFormModal.tsx:62-89 | the error record has a message for exactly the fields that have one, and it is that message |
| UserFormModal.ValidFormIff | src/pages/enterprise/settings/UserFormModal.tsx:62-89 | the form passes exactly when name, title, department and role have text and the e-mail and phone match their patterns; a matching value is never blank |
| UserFormModal.NoErrorsIff | src/pages/enterprise/settings/UserFormModal.tsx:62-89 | the record is empty exactly when no field has a message |
| UserFormModal.MatchIsNotBlank | src/pages/enterprise/settings/UserFormModal.tsx:74-83 | text that matches either pattern is not blank, so the "required" branch never hides an "invalid" one |
| UserFormModal.WithField | src/pages/enterprise/settings/UserFormModal.tsx:130 | the named field takes the typed text and each of the other five fields keeps its own |
| UserFormModal.Dialog.constructor | src/pages/enterprise/settings/UserFormModal.tsx:42-58 | the fields start from the edited user's values or empty, with no errors |
| UserFormModal.Dialog.HandleSubmit | src/pages/enterprise/settings/UserFormModal.tsx:91-101 | with errors they are shown and nothing is submitted; without, the form is handed to `onSubmit` |
| UserFormModal.Dialog.FieldChange | src/pages/enterprise/settings/UserFormModal.tsx:129-134 | the field takes the typed text and only its own error is cleared |
| LocationFormModal.ValidateForm | src/pages/enterprise/settings/LocationFormModal.tsx:43-62 | the error record has a message for exactly the fields that have one, and it is that message |
| LocationFormModal.OnlineChecksOnlyName | src/pages/enterprise/settings/LocationFormModal.tsx:46-50 | the name is flagged exactly when blank after trimming; an online meeting is checked for nothing else |
| LocationFormModal.OfflineCapacityMessages | src/pages/enterprise/settings/LocationFormModal.tsx:50-58 | for an offline room a missing or zero capacity asks for one, a negative one is too small, the capacity passes exactly from 1 up, and a blank address is flagged |
| LocationFormModal.ValidFormIff | src/pages/enterprise/settings/LocationFormModal.tsx:43-62 | the form passes exactly when the name has text and, for an offline room, the capacity is at least 1 and the address has text |
| LocationFormModal.CapacityInput | src/pages/enterprise/settings/LocationFormModal.tsx:156 | `parseInt(value) \|\| undefined`: no capacity when the text starts with no number or with 0, otherwise the number it starts with |
| LocationFormModal.CapacityInputOfNumber | src/pages/enterprise/settings/LocationFormModal.tsx:154-156 | typing a number stores that number, except 0, which stores nothing |
| LocationFormModal.WithText | src/pages/enterprise/settings/LocationFormModal.tsx:129-179 | the form with the name or the address replaced by the typed text |
| LocationFormModal.Dialog.constructor | src/pages/enterprise/settings/LocationFormModal.tsx:28-39 | the fields start from the edited location with the `\|\|` defaults: an absent or zero capacity becomes none, an absent address empty |
| LocationFormModal.Dialog.HandleSubmit | src/pages/enterprise/settings/LocationFormModal.tsx:64-74 | with errors they are shown and nothing is submitted; without, the form is handed to `onSubmit` |
| LocationFormModal.Dialog.KindChange | src/pages/enterprise/settings/LocationFormModal.tsx:104-113 | the radio buttons change the type and nothing else |
| LocationFormModal.Dialog.TextChange | src/pages/enterprise/settings/LocationFormModal.tsx:128-183 | the name or address takes the typed text and only its own error is cleared |
| LocationFormModal.Dialog.CapacityChange | src/pages/enterprise/settings/LocationFormModal.tsx:155-160 | the parsed capacity is stored and only the capacity error is cleared |
| EnterpriseForm.ValidateForm | src/pages/admin/enterprises/EnterpriseForm.tsx:93-113 | the error record has a message for exactly the fields that have one, and it is that message |
| EnterpriseForm.RequiredAndOptionalFields | src/pages/admin/enterprises/EnterpriseForm.tsx:96-103 | each of the eight always-required fields is flagged exactly when it is empty or absent, whatever the customer kind; description, contact title, sales e-mail, notes and status never are |
| EnterpriseForm.CustomerKindBranches | src/pages/admin/enterprises/EnterpriseForm.tsx:105-110 | a trial customer is asked for its trial days and never for contract dates; any other customer for both contract dates and never for trial days |
| EnterpriseForm.InitialFormErrors | src/pages/admin/enterprises/EnterpriseForm.tsx:34-49 | submitting the initial form (a formal customer, nothing typed) flags the eight required fields and both contract dates, nothing else |
| EnterpriseForm.ValidFormIff | src/pages/admin/enterprises/EnterpriseForm.tsx:93-113 | the form passes exactly when every checked field holds a non-empty text |
| EnterpriseForm.Form.constructor | src/pages/admin/enterprises/EnterpriseForm.tsx:34-52 | the initial form data, with no errors and no navigation |
| EnterpriseForm.Form.HandleInputChange | src/pages/admin/enterprises/EnterpriseForm.tsx:54-67 | the typed text is stored under the input's name and only that field's error is cleared |
| EnterpriseForm.Form.HandleSubmit | src/pages/admin/enterprises/EnterpriseForm.tsx:115-127 | with errors they are shown and the screen stays; without, it navigates back to the enterprise list |
| AccountChecks.ProfileAcceptedIff | src/pages/enterprise/settings/ProfileSettings.tsx:37-43 | the profile passes exactly when name, e-mail and phone are non-empty; a name of spaces only is accepted, since nothing is trimmed |
| AccountChecks.CheckPassword | src/pages/enterprise/settings/ProfileSettings.tsx:52-62 | running the four checks in order leaves exactly the field-by-field error record, the mismatch overwriting the confirmation's "required" message |
| AccountChecks.PasswordAcceptedIff | src/pages/admin/settings/UserSettings.tsx:64-73 | a password change passes exactly when the current and the new password are given and the confirmation repeats the new one |
| AccountChecks.ConfirmMessage | src/pages/enterprise/settings/ProfileSettings.tsx:58-61 | the confirmation is flagged when empty or different; a difference wins, so an empty confirmation after a typed new password reads "两次输入的密码不一致" |
| ProfileSettings.Screen.constructor | src/pages/enterprise/settings/ProfileSettings.tsx:13-33 | `INITIAL_PROFILE`, empty passwords and no error sub-records |
| ProfileSettings.Screen.HandleProfileSubmit | src/pages/enterprise/settings/ProfileSettings.tsx:35-50 | the profile is accepted exactly when its error record is empty; a failure replaces only the profile sub-record |
| ProfileSettings.Screen.HandlePasswordSubmit | src/pages/enterprise/settings/ProfileSettings.tsx:52-70 | the change is accepted exactly when its error record is empty; a failure replaces only the password sub-record |
| ProfileSettings.Screen.ProfileChange | src/pages/enterprise/settings/ProfileSettings.tsx:130-172 | the profile inputs store their texts and leave the errors as they are |
| ProfileSettings.Screen.PasswordChange | src/pages/enterprise/settings/ProfileSettings.tsx:206-248 | the password inputs store their texts and leave the errors as they are |
| UserSettings.Toggle | src/pages/admin/settings/UserSettings.tsx:90-98 | the switch of the key flips and the other two keep their state |
| UserSettings.ToggleTwice | src/pages/admin/settings/UserSettings.tsx:90-98 | flipping a switch twice restores the settings, and two flips commute |
| UserSettings.InitialSwitches | src/pages/admin/settings/UserSettings.tsx:18-28 | e-mail and browser notifications start on, mobile off |
| UserSettings.Screen.constructor | src/pages/admin/settings/UserSettings.tsx:18-43 | `INITIAL_PROFILE`, empty passwords and no error sub-records |
| UserSettings.Screen.HandleProfileSubmit | src/pages/admin/settings/UserSettings.tsx:45-60 | the profile is accepted exactly when its error record is empty; a failure replaces only the profile sub-record |
| UserSettings.Screen.HandlePasswordSubmit | src/pages/admin/settings/UserSettings.tsx:62-80 | the change is accepted exactly when its error record is empty; a failure replaces only the password sub-record |
| UserSettings.Screen.HandleNotificationChange | src/pages/admin/settings/UserSettings.tsx:90-98 | only the switch of the key flips; texts, passwords and errors stay |
| UserSettings.Screen.ProfileChange | src/pages/admin/settings/UserSettings.tsx:151-193 | the profile inputs store their texts; the switches and errors stay |
| UserSettings.Screen.PasswordChange | src/pages/admin/settings/UserSettings.tsx:232-274 | the password inputs store their texts and leave the errors as they are |
| AddUserModal.WithField | src/pages/admin/enterprises/AddUserModal.tsx:45 | the field takes the value and every other field keeps its own |
| AddUserModal.ValidateForm | src/pages/admin/enterprises/AddUserModal.tsx:27-33 | exactly the empty values get an error, each with its field's "required" message |
| AddUserModal.ValidFormIff | src/pages/admin/enterprises/AddUserModal.tsx:27-38 | the form passes exactly when no value is empty; values of spaces only pass |
| AddUserModal.Modal.constructor | src/pages/admin/enterprises/AddUserModal.tsx:13-21 | all values empty, no errors, nothing submitted, not closed |
| AddUserModal.Modal.HandleSubmit | src/pages/admin/enterprises/AddUserModal.tsx:25-42 | with errors they replace the shown ones; without, the form goes to `onSubmit` and the dialog closes |
| AddUserModal.Modal.HandleInputChange | src/pages/admin/enterprises/AddUserModal.tsx:44-49 | the field takes the value and only its own error is cleared |
| DepartmentFormModal.ValidateForm | src/pages/enterprise/settings/DepartmentFormModal.tsx:43-54 | the error record has a message for exactly the fields that have one, and it is that message |
| DepartmentFormModal.ValidFormIff | src/pages/enterprise/settings/DepartmentFormModal.tsx:43-54 | the form passes exactly when the name and the code both have text after trimming |
| DepartmentFormModal.OnlyNameAndCodeChecked | src/pages/enterprise/settings/DepartmentFormModal.tsx:43-54 | the parent and the description play no part in the checks |
| DepartmentFormModal.ParentOptions | src/pages/enterprise/settings/DepartmentFormModal.tsx:100-101 | the parent select offers exactly the departments without a parent, in list order |
| DepartmentFormModal.EditedRootIsOffered | src/pages/enterprise/settings/DepartmentFormModal.tsx:100-101 | a top-level department that is being edited is offered as its own parent |
| DepartmentFormModal.ParentChoice | src/pages/enterprise/settings/DepartmentFormModal.tsx:92-96 | `e.target.value \|\| null`: the empty option stores no parent, any other stores its id |
| DepartmentFormModal.InitialData | src/pages/enterprise/settings/DepartmentFormModal.tsx:29-34 | the edited department's values with the `\|\|` defaults, so an empty parent id starts as no parent; empty values for a new department |
| DepartmentFormModal.Dialog.constructor | src/pages/enterprise/settings/DepartmentFormModal.tsx:29-39 | the initial form, no errors, nothing submitted |
| DepartmentFormModal.Dialog.HandleSubmit | src/pages/enterprise/settings/DepartmentFormModal.tsx:56-66 | with errors they are shown and nothing is submitted; without, the form is handed to `onSubmit` |
| DepartmentFormModal.Dialog.ParentChange | src/pages/enterprise/settings/DepartmentFormModal.tsx:93-96 | the parent select stores the chosen parent and nothing else |
| DepartmentFormModal.Dialog.NameChange | src/pages/enterprise/settings/DepartmentFormModal.tsx:118-123 | the name takes the typed text and only the name error is cleared |
| DepartmentFormModal.Dialog.CodeChange | src/pages/enterprise/settings/DepartmentFormModal.tsx:141-146 | the code takes the typed text and only the code error is cleared |
| DepartmentFormModal.Dialog.DescriptionChange | src/pages/enterprise/settings/DepartmentFormModal.tsx:163 | the description takes the typed text; no error is touched |
| CandidateForm.FilteredPositions | src/pages/enterprise/CandidateForm.tsx:68-76 | the dropdown lists exactly the positions whose title, department or level contains the search ignoring case, minus the one already picked, in list order |
| CandidateForm.EmptySearchOffersAllButSelected | src/pages/enterprise/CandidateForm.tsx:68-76 | with an empty search every position but the picked one is offered, and the picked one never is |
| CandidateForm.SubmitErrors | src/pages/enterprise/CandidateForm.tsx:92-104 | the error record has a message for exactly the checks that fail: a blank name, no e-mail and no phone, no position |
| CandidateForm.SubmitAcceptedIff | src/pages/enterprise/CandidateForm.tsx:90-112 | the form passes exactly when the name has text, an e-mail or a phone is given and a position is picked |
| CandidateForm.OneContactSuffices | src/pages/enterprise/CandidateForm.tsx:98-100 | an e-mail alone or a phone alone clears the contact check |
| CandidateForm.Form.constructor | src/pages/enterprise/CandidateForm.tsx:35-51 | nothing typed, nothing picked, no errors, the resume idle |
| CandidateForm.Form.HandlePositionSelect | src/pages/enterprise/CandidateForm.tsx:78-83 | the position is picked, the search emptied, the dropdown closed and the position error cleared |
| CandidateForm.Form.HandlePositionRemove | src/pages/enterprise/CandidateForm.tsx:85-88 | the pick is dropped and the position error is shown at once |
| CandidateForm.Form.HandleSubmit | src/pages/enterprise/CandidateForm.tsx:90-112 | with errors the whole record is replaced; without, the screen goes to the candidate list |
| CandidateForm.Form.NameChange | src/pages/enterprise/CandidateForm.tsx:240-243 | the name is stored and its error cleared |
| CandidateForm.Form.EmailChange | src/pages/enterprise/CandidateForm.tsx:348-353 | the e-mail is stored; the contact error is cleared when the new e-mail or the phone is non-empty |
| CandidateForm.Form.PhoneChange | src/pages/enterprise/CandidateForm.tsx:370-375 | the phone is stored; the contact error is cleared when the new phone or the e-mail is non-empty |
| CandidateForm.Form.PositionSearchChange | src/pages/enterprise/CandidateForm.tsx:295-298 | typing in the position search stores it and opens the dropdown |
| CandidateForm.Form.ResumeUploadStart | src/pages/enterprise/CandidateForm.tsx:114-136 | the form locks while the resume is uploaded |
| CandidateForm.Form.ResumeUploaded | src/pages/enterprise/CandidateForm.tsx:119-136 | after the upload the resume is parsed, still locked |
| CandidateForm.Form.ResumeParsed | src/pages/enterprise/CandidateForm.tsx:129-133 | the parsed name, e-mail, phone and the first position are filled in and the form unlocks |
| SelectionLists.RemoveKey | src/components/EditInterviewersModal.tsx:53 | the entries whose key differs from the removed one, in their order; none with that key is left and every other entry stays |
| SelectionLists.RemoveAbsentKey | src/components/EditInterviewModal.tsx:147 | removing a key that is not in the list changes nothing |
| SelectionLists.AppendKeepsKeysUnique | src/components/EditInterviewersModal.tsx:57 | appending an entry whose key is not yet there keeps the keys free of repeats |
| SelectionLists.RemoveKeepsKeysUnique | src/components/InterviewModal.tsx:140 | removal keeps the keys free of repeats |
| EditInterviewModal.ValidateForm | src/components/EditInterviewModal.tsx:110-117 | exactly the missing fields (an empty text, no interviewer) get an error, each with its field's message |
| EditInterviewModal.ValidFormIff | src/components/EditInterviewModal.tsx:108-126 | the form passes exactly when date, time, duration, type and location are given and an interviewer is picked |
| EditInterviewModal.FilteredInterviewers | src/components/EditInterviewModal.tsx:98-106 | the dropdown lists exactly the interviewers whose name, title or department contains the search ignoring case and whose id is not picked yet, in list order |
| EditInterviewModal.Entry | src/components/EditInterviewModal.tsx:131-135 | the entry appended for an interviewer carries that interviewer's id |
| EditInterviewModal.PickingKeepsIdsUnique | src/components/EditInterviewModal.tsx:98-136 | an offered interviewer is not yet picked, so appending it keeps the picked ids unique |
| EditInterviewModal.Modal.constructor | src/components/EditInterviewModal.tsx:66-77 | the fields start from the interview being edited, with no errors and the dropdown closed |
| EditInterviewModal.Modal.HandleInterviewerSelect | src/components/EditInterviewModal.tsx:128-142 | the interviewer goes at the end, the search empties, the dropdown closes, the interviewers error is cleared; no one is picked twice |
| EditInterviewModal.Modal.HandleInterviewerRemove | src/components/EditInterviewModal.tsx:144-149 | the entries with the id go, the rest keep their order, and the ids stay unique |
| EditInterviewModal.Modal.HandleSubmit | src/components/EditInterviewModal.tsx:108-126 | with errors they replace the shown ones; without, the form goes to `onSubmit` and the dialog closes |
| EditInterviewModal.Modal.TextChange | src/components/EditInterviewModal.tsx:177-262 | the date, time, duration, type and location inputs store their texts and clear no error |
| InterviewModal.FilteredCandidates | src/components/InterviewModal.tsx:98-102 | the candidate dropdown lists exactly the candidates whose name or current position contains the search ignoring case, in list order |
| InterviewModal.FilteredInterviewers | src/components/InterviewModal.tsx:104-114 | the interviewer dropdown lists exactly the interviewers whose name, title or department contains the search ignoring case and whose name is not picked yet, in list order |
| InterviewModal.CandidateSearchText | src/components/InterviewModal.tsx:124 | the text put into the candidate box starts with the name and " - ", ends with " - " and the current position, and holds the applied position between them |
| InterviewModal.PickingKeepsNamesUnique | src/components/InterviewModal.tsx:104-135 | an offered interviewer's name is not picked yet, so appending it keeps the names free of repeats |
| InterviewModal.NameKeysUnique | src/components/InterviewModal.tsx:111-140 | a list of names has unique keys exactly when no name repeats, so removal by name keeps it repeat-free |
| InterviewModal.Modal.constructor | src/components/InterviewModal.tsx:63-77 | nothing chosen, a duration of "1", both dropdowns closed, nothing submitted |
| InterviewModal.Modal.HandleSubmit | src/components/InterviewModal.tsx:116-120 | the handler makes no check; the browser requires date, time and location before calling it. The form then goes to `onSubmit` as it is, even with no candidate or interviewer, and the dialog closes |
| InterviewModal.RequiredInputsOnly | src/components/InterviewModal.tsx:214-268 | the `required` date, time and location inputs block the untouched form; a form without a candidate or interviewers still passes once those three hold text |
| InterviewModal.Modal.HandleCandidateSelect | src/components/InterviewModal.tsx:122-126 | the candidate's id is stored, its description goes into the search box and the dropdown closes |
| InterviewModal.Modal.HandleInterviewerSelect | src/components/InterviewModal.tsx:128-135 | the name goes at the end of the list, the search empties and the dropdown closes; no name is picked twice |
| InterviewModal.Modal.HandleInterviewerRemove | src/components/InterviewModal.tsx:137-142 | every entry of the name goes and the rest keep their order; no name repeats |
| InterviewModal.Modal.CandidateSearchChange | src/components/InterviewModal.tsx:178-182 | typing in the candidate search opens its dropdown; the picked candidate, the interviewer search and its dropdown stay |
| InterviewModal.Modal.InterviewerSearchChange | src/components/InterviewModal.tsx:316-318 | typing in the interviewer search opens its dropdown; the form, the candidate search and its dropdown stay |
| InterviewModal.Modal.TextChange | src/components/InterviewModal.tsx:223-361 | the date, time, duration, location and notes inputs store their texts |
| EditInterviewersModal.FilteredInterviewers | src/components/EditInterviewersModal.tsx:40-50 | the list shows exactly the built-in interviewers whose id is not chosen and whose name, title or department contains the search ignoring case, in their order |
| EditInterviewersModal.AddingKeepsIdsUnique | src/components/EditInterviewersModal.tsx:40-59 | adding an offered interviewer keeps the chosen ids distinct |
| EditInterviewersModal.NoDepartmentMatchesByNameOrTitle | src/components/EditInterviewersModal.tsx:48 | an interviewer without a department is found only by name or title |
| EditInterviewersModal.EmptySearchOffersAllUnchosen | src/components/EditInterviewersModal.tsx:40-50 | with an empty search every built-in interviewer not chosen yet is listed |
| EditInterviewersModal.Modal.constructor | src/components/EditInterviewersModal.tsx:35-36 | the chosen list starts as the current interviewers, the search empty |
| EditInterviewersModal.Modal.HandleRemoveInterviewer | src/components/EditInterviewersModal.tsx:52-54 | every interviewer with the id goes, the rest keep their order, ids stay distinct |
| EditInterviewersModal.Modal.HandleAddInterviewer | src/components/EditInterviewersModal.tsx:56-59 | the offered interviewer goes at the end, the search empties, ids stay distinct |
| EditInterviewersModal.Modal.SearchChange | src/components/EditInterviewersModal.tsx:113 | the search box stores its text |
| EditInterviewersModal.Modal.HandleSubmit | src/components/EditInterviewersModal.tsx:61-64 | the chosen list goes to `onSubmit` and the dialog closes |
| DepartmentSettings.Toggle | src/pages/enterprise/settings/DepartmentSettings.tsx:52-60 | the id leaves the expanded set when it is in it and joins it otherwise; no other id changes |
| DepartmentSettings.ToggleTwice | src/pages/enterprise/settings/DepartmentSettings.tsx:52-60 | toggling the same department twice restores the set |
| DepartmentSettings.ChildrenExactly | src/pages/enterprise/settings/DepartmentSettings.tsx:62-64 | the children are exactly the departments with that parent, in list order |
| DepartmentSettings.HeadRow | src/pages/enterprise/settings/DepartmentSettings.tsx:73-134 | a department's own row: the expand button is there exactly when some department has it as parent, and the arrow is turned exactly when it is expanded |
| DepartmentSettings.CollapsedShowsOneRow | src/pages/enterprise/settings/DepartmentSettings.tsx:139-143 | a collapsed department, or one without children, draws its own row alone |
| DepartmentSettings.ExpandedShowsFirstChild | src/pages/enterprise/settings/DepartmentSettings.tsx:139-143 | an expanded department with children is followed by its first child's row, one level deeper |
| DepartmentSettings.SubtreeIsDeeper | src/pages/enterprise/settings/DepartmentSettings.tsx:72-146 | every row drawn below a department is indented deeper than it |
| DepartmentSettings.SiblingsAtLeastLevel | src/pages/enterprise/settings/DepartmentSettings.tsx:141 | every row drawn for a list of siblings is at least at their level |
| DepartmentSettings.RowsAreDepartments | src/pages/enterprise/settings/DepartmentSettings.tsx:141-174 | every drawn row is a department of the list |
| DepartmentSettings.MockChildren | src/pages/enterprise/settings/DepartmentSettings.tsx:15-64 | the roots are 技术部 and 产品部, and only 技术部 has children, its two groups |
| DepartmentSettings.InitialTree | src/pages/enterprise/settings/DepartmentSettings.tsx:50-174 | the opening tree: 技术部 expanded with its two groups below, then 产品部 without children |
| DepartmentSettings.Screen.constructor | src/pages/enterprise/settings/DepartmentSettings.tsx:47-50 | empty search, no dialogs, only 技术部 expanded |
| DepartmentSettings.Screen.ToggleDepartment | src/pages/enterprise/settings/DepartmentSettings.tsx:52-60 | the expanded set is toggled at the id and nothing else changes |
| DepartmentSettings.Screen.SearchChange | src/pages/enterprise/settings/DepartmentSettings.tsx:166 | the search text is stored; it filters nothing |
| DepartmentSettings.Screen.AskDelete | src/pages/enterprise/settings/DepartmentSettings.tsx:109 | the delete button asks for confirmation of that department |
| DepartmentSettings.Screen.CloseDelete | src/pages/enterprise/settings/DepartmentSettings.tsx:178-189 | confirming or cancelling closes the dialog; nothing is deleted |
| DepartmentSettings.Screen.SetFormModal | src/pages/enterprise/settings/DepartmentSettings.tsx:66-70 | the add button opens the form; submitting or closing it shuts it and adds nothing |
| CandidateProfile.OfferedActions | src/components/CandidateProfile.tsx:330-403 | while pending the header offers 不合适 and 通过; after a decision only the undo button |
| CandidateProfile.ApplyAction | src/components/CandidateProfile.tsx:134-140 | a button leads back to pending exactly when it is the undo |
| CandidateProfile.DecisionsGoThroughPending | src/components/CandidateProfile.tsx:134-403 | every offered button changes the status, a decision is made only from pending, and its undo returns there |
| CandidateProfile.StatusLabel | src/components/CandidateProfile.tsx:361-399 | the decision button names how to undo the decision exactly while the mouse is over it; otherwise it reads 已通过 for an approved candidate and 已标记不合适 for a rejected one |
| CandidateProfile.FourHashesAreH4 | src/components/CandidateProfile.tsx:535-540 | a `#### ` line gets past the `### ` test and is drawn as an `h4`; a `### ` line as an `h3` |
| CandidateProfile.ResumeLineRoundTrip | src/components/CandidateProfile.tsx:535-544 | the element drawn for a line, with its marker put back, is the line: only the marker is dropped |
| CandidateProfile.ResumeBlocks | src/components/CandidateProfile.tsx:534-545 | one element per line of the resume, in order, each drawn by the line rule |
| CandidateProfile.ResumeDrawnInFull | src/components/CandidateProfile.tsx:534-545 | putting the markers back and joining the drawn lines gives the stored resume text |
| CandidateProfile.Profile.constructor | src/components/CandidateProfile.tsx:117-132 | pending, not hovering, no reading yet, the stored resume, editor and interview list closed |
| CandidateProfile.Profile.PressStatusButton | src/components/CandidateProfile.tsx:134-389 | an offered button sets the status it stands for, which always differs from the old one |
| CandidateProfile.Profile.HoverStatus | src/components/CandidateProfile.tsx:361-388 | the mouse entering or leaving sets the hover flag and nothing else |
| CandidateProfile.Profile.StartAnalysis | src/components/CandidateProfile.tsx:166-185 | the reading starts from the empty state |
| CandidateProfile.Profile.FinishAnalysis | src/components/CandidateProfile.tsx:168-169 | after the wait the reading is complete |
| CandidateProfile.Profile.ToggleEditing | src/components/CandidateProfile.tsx:509 | the 编辑/完成 button switches between the editor and the drawn text |
| CandidateProfile.Profile.ContentChange | src/components/CandidateProfile.tsx:519 | the editor stores its text at once |
| CandidateProfile.Profile.CloseEditor | src/components/CandidateProfile.tsx:142-144 | 保存 and 取消 both close the editor and keep the text as edited |
| CandidateProfile.Profile.ToggleInterviews | src/components/CandidateProfile.tsx:424 | the interview list opens and closes |
| InterviewDetailContent.NumberedIff | src/components/interview/InterviewDetailContent.tsx:296 | the numbered-line test accepts exactly the lines `/^\d+\./` matches: one or more digits, then a full stop |
| InterviewDetailContent.GuideAndFeedbackDiffer | src/components/interview/InterviewDetailContent.tsx:289-351 | the guide and the feedback draw a line differently exactly when it is a numbered line with neither marker: the guide puts it in a `div`, the feedback in a paragraph |
| InterviewDetailContent.LinesRoundTrip | src/components/interview/InterviewDetailContent.tsx:290-350 | in either display, the element drawn for a line, with its marker put back, is the line |
| InterviewDetailContent.GuideBlocks | src/components/interview/InterviewDetailContent.tsx:289-300 | one element per line of the guide, in order, each drawn by the guide's line rule |
| InterviewDetailContent.FeedbackBlocks | src/components/interview/InterviewDetailContent.tsx:343-351 | one element per line of the feedback, in order, each drawn by the feedback's line rule |
| InterviewDetailContent.DisplaysKeepEverything | src/components/interview/InterviewDetailContent.tsx:289-351 | putting the markers back and joining the drawn lines gives the guide and the feedback text |
| InterviewDetailContent.NameSpans | src/components/interview/InterviewDetailContent.tsx:233-238 | one span per interviewer: the name, followed by `、` unless it is the last |
| InterviewDetailContent.NamesJoined | src/components/interview/InterviewDetailContent.tsx:233-238 | the header reads as the names joined by `、` |
| InterviewDetailContent.HeaderReadsBack | src/components/interview/InterviewDetailContent.tsx:233-238 | when no name holds a `、`, splitting the header at `、` gives back the names; no interviewer gives an empty header |
| InterviewDetailContent.Content.constructor | src/components/interview/InterviewDetailContent.tsx:87-92 | no guide yet, not generating, the feedback template, no editor and no confirmation open |
| InterviewDetailContent.Content.Panel | src/components/interview/InterviewDetailContent.tsx:270-318 | the guide column shows the invitation exactly when the generate button shows, and a guide only when there is text |
| InterviewDetailContent.Content.StartGuide | src/components/interview/InterviewDetailContent.tsx:115-313 | generating starts from the invitation: the spinner shows and the generate button goes |
| InterviewDetailContent.Content.FinishGuide | src/components/interview/InterviewDetailContent.tsx:117-119 | after the wait the template is the guide and it is drawn |
| InterviewDetailContent.Content.ToggleFeedbackEditing | src/components/interview/InterviewDetailContent.tsx:327 | the 编辑/完成 button switches between the feedback editor and the drawn feedback |
| InterviewDetailContent.Content.FeedbackChange | src/components/interview/InterviewDetailContent.tsx:337 | the feedback editor stores its text |
| InterviewDetailContent.Content.SetConfirm | src/components/interview/InterviewDetailContent.tsx:100-108 | each decision button opens its own confirmation; confirming or cancelling closes it and changes nothing else |
| PositionDetail.NextPhase | src/pages/enterprise/positions/PositionDetail.tsx:104-111 | each wait of the analysis moves the animation one phase on |
| PositionDetail.FlagsNested | src/pages/enterprise/positions/PositionDetail.tsx:136-138 | the frame, chart and details flags are thresholds on the phase order: details implies chart, chart implies frame |
| PositionDetail.LoadingCaption | src/pages/enterprise/positions/PositionDetail.tsx:167-169 | the overlay has a caption in every phase but the last |
| PositionDetail.ThreeStepsFinish | src/pages/enterprise/positions/PositionDetail.tsx:99-112 | three steps after the frame the animation is done |
| PositionDetail.FourHashesAreParagraphs | src/pages/enterprise/positions/PositionDetail.tsx:310-318 | a `#### ` line has no rule of its own here and is drawn as a paragraph, hash marks and all |
| PositionDetail.ContentLineRoundTrip | src/pages/enterprise/positions/PositionDetail.tsx:311-317 | the element drawn for a line, with its marker put back, is the line |
| PositionDetail.ContentBlocks | src/pages/enterprise/positions/PositionDetail.tsx:310-318 | one element per line of the description, in order, each drawn by the line rule |
| PositionDetail.ContentDrawnInFull | src/pages/enterprise/positions/PositionDetail.tsx:310-318 | putting the markers back and joining the drawn lines gives the description text |
| PositionDetail.Detail.constructor | src/pages/enterprise/positions/PositionDetail.tsx:54-61 | no reading, the first phase, the stored description, nothing open |
| PositionDetail.Detail.OverlayAndEditButton | src/pages/enterprise/positions/PositionDetail.tsx:116-162 | with status and phase in step, the overlay shows exactly while generating and the edit button exactly once complete, never both |
| PositionDetail.Detail.StartAnalysis | src/pages/enterprise/positions/PositionDetail.tsx:99-128 | the analysis starts from the empty state at the first phase, overlay up |
| PositionDetail.Detail.AdvancePhase | src/pages/enterprise/positions/PositionDetail.tsx:104-112 | after each wait the next phase; with the last one the status is complete |
| PositionDetail.Detail.ToggleEditing | src/pages/enterprise/positions/PositionDetail.tsx:285 | the 编辑 button (its label does not change) switches between the editor and the drawn description; every other field stays |
| PositionDetail.Detail.ContentChange | src/pages/enterprise/positions/PositionDetail.tsx:295 | the editor stores its text at once |
| PositionDetail.Detail.CloseEditor | src/pages/enterprise/positions/PositionDetail.tsx:88-91 | 保存 and 取消 both close the editor and keep the text |
| PositionDetail.Detail.SetStatusDropdown | src/pages/enterprise/positions/PositionDetail.tsx:65-86 | the status menu opens and closes; choosing a status changes none |
| PositionDetail.Detail.SetCompetencyEditModal | src/pages/enterprise/positions/PositionDetail.tsx:93-97 | the competency editor opens only from the finished reading, and closing or submitting it keeps the reading |
| PositionDetail.RunAnalysis | src/pages/enterprise/positions/PositionDetail.tsx:99-113 | from the start the analysis runs frame, chart, details, done, and ends complete with the overlay gone |
| CareerPath.FindIndex | src/components/CareerPath.tsx:75 | the first stage with the title, or -1 exactly when no stage has it |
| CareerPath.StyleOf | src/components/CareerPath.tsx:82-84 | a stage is past before the found index, future after it, and current when it carries the title |
| CareerPath.FoundPositionSplitsPath | src/components/CareerPath.tsx:75-84 | with distinct titles and the position on the path, each stage is exactly one of past, current and future, the current one at the found index |
| CareerPath.MissingPositionAllFuture | src/components/CareerPath.tsx:75-84 | a position not on the path makes every stage future and none current |
| CareerPath.CareerPathsUnique | src/components/CareerPath.tsx:17-70 | the built-in stages have distinct titles |
| CareerPath.Connectors | src/components/CareerPath.tsx:121 | a connector follows every stage but the last |
| CareerPath.Strip.constructor | src/components/CareerPath.tsx:73 | no stage is open |
| CareerPath.Strip.NodeClick | src/components/CareerPath.tsx:95 | clicking the open stage closes it, any other opens in its place, stages told apart by title |
| CareerPath.ClickTwice | src/components/CareerPath.tsx:95 | two clicks on the same stage from none open leave none open |
| EnterprisePortal.IndexActiveOnlyOnIndex | src/pages/enterprise/EnterprisePortal.tsx:47-50 | the empty path is active exactly on `/enterprise` and `/enterprise/` |
| EnterprisePortal.DashboardLinkNotHighlighted | src/pages/enterprise/EnterprisePortal.tsx:82-87 | on `/enterprise/dashboard`, the 工作台 item's own link, no sidebar item is highlighted, 工作台 included |
| EnterprisePortal.PrefixExamples | src/pages/enterprise/EnterprisePortal.tsx:51 | matching is by prefix: `/enterprise/candidate/new` does not highlight 候选人, while `/enterprise/settings/profile` highlights 系统设置 |
| EnterprisePortal.FixedOnlyAddsDashboard | src/pages/enterprise/EnterprisePortal.tsx:47-52 | the corrected rule differs from the written one only by also making the empty path active under `/enterprise/dashboard` |
| EnterprisePortal.LinksDistinctPrefixes | src/pages/enterprise/EnterprisePortal.tsx:81-170 | no item's link starts with another non-index item's `/enterprise/<path>` |
| EnterprisePortal.FixedHighlightsOwnItem | src/pages/enterprise/EnterprisePortal.tsx:81-170 | under the corrected rule, each item's link highlights that item and no other |
| AdminPortal.DashboardConditionRedundant | src/pages/admin/AdminPortal.tsx:41-46 | the dashboard highlight `isActiveRoute('') && !isActiveRoute('enterprises')` is the same as `isActiveRoute('')`, and the two items are never highlighted together |
| AdminPortal.DashboardExactly | src/pages/admin/AdminPortal.tsx:89-92 | the dashboard item is highlighted exactly on `/admin` and `/admin/dashboard`, so on its own link |
| AdminPortal.EnterprisePagesHighlighted | src/pages/admin/AdminPortal.tsx:108-111 | every path under `/admin/enterprises` (the list, the new form, a detail) highlights the enterprise item |
| AdminPortal.SettingsHighlightsNothing | src/pages/admin/AdminPortal.tsx:168 | `/admin/settings` highlights neither item |
| EnterpriseSettings.LinkOf | src/pages/enterprise/settings/EnterpriseSettings.tsx:61 | a menu link lies under `/enterprise/settings/` and ends with the item's path |
| EnterpriseSettings.LinkHighlightsOwnItem | src/pages/enterprise/settings/EnterpriseSettings.tsx:46-48 | each menu item's link highlights that item |
| EnterpriseSettings.NoPathEndsAnother | src/pages/enterprise/settings/EnterpriseSettings.tsx:10-41 | no menu path is a suffix of another |
| EnterpriseSettings.AtMostOneHighlighted | src/pages/enterprise/settings/EnterpriseSettings.tsx:46-48 | whatever the pathname, no two menu items are highlighted together |
| EnterpriseSettings.IndexHighlightsNothing | src/pages/enterprise/settings/EnterpriseSettings.tsx:91 | the index route, with or without the trailing slash, shows the interviewer page but highlights no item |
| TruncatedField.DefaultWidth | src/components/TruncatedField.tsx:13-28 | the default widths: 200 exactly for e-mails and addresses, 120 exactly for names and phones, 150 otherwise |
| TruncatedField.MaxWidth | src/components/TruncatedField.tsx:13-28 | a given non-zero width is used as it is; an absent width or 0 gives the kind's default |
| TruncatedField.WidthCases | src/pages/enterprise/Candidates.tsx:291-305 | a width of 0 is the same as none, a given width does not depend on the kind, and the `'info'` and `'location'` cells get 150 |
| Dates.MonthsAreContiguous | src/components/Calendar/Calendar.tsx:64-72 | the 1st of the next month is the day after the last day of this month |
| Dates.Normalize | src/components/Calendar.tsx:34 | a day number outside the month is carried into earlier or later months, and the result is always a valid calendar date |
| Dates.NormalizeDayNumber | src/components/Calendar.tsx:27 | carrying days neither gains nor loses one: the result lies `d - 1` days after the 1st of the month, so day 0 is the previous month's last day |
| Dates.MakeDate | src/components/Calendar/Calendar.tsx:34 | `new Date(y, m, d)` with any month number gives a valid date |
| Dates.MakeDateDayNumber | src/components/Calendar/Calendar.tsx:34 | `new Date(y, m, d)` is `d - 1` days after the 1st of the month reached from `y` by `m` months, floor division included |
| Dates.Weekday | src/components/Calendar/Calendar.tsx:28 | `getDay()` is a weekday in 0..6 |
| Dates.DayNumberWithinYear | src/components/Calendar.tsx:42-44 | a valid date's day count lies inside its own year |
| Dates.LaterYearsStartLater | src/components/Calendar.tsx:42-44 | a later year starts no earlier than the day after the end of an earlier one |
| Dates.FirstOfMonth | src/components/Calendar/Calendar.tsx:106 | `new Date(y, m, 1)` for any month number is the 1st of the month reached by carrying whole years |
| Dates.DayOfNextMonth | src/components/Calendar/Calendar.tsx:71 | `new Date(y, m + 1, i)` for a day up to 28 is day `i` of the next month, December carrying into January |
| Dates.MonthArithmetic | src/components/Calendar/Calendar.tsx:105-107 | carrying a month into the year and then adding `k` months gives the same year and month as adding `k` directly |
| Lists.FilterIsSubsequence | src/pages/enterprise/Candidates.tsx:150-162 | filtering keeps only rows of the list, in their order |
| Lists.FilterTwice | src/pages/enterprise/Schedule.tsx:106-120 | filtering twice is filtering once by both conditions |
| Lists.FilterAll | src/pages/enterprise/positions/Positions.tsx:118-125 | a condition every row meets keeps the whole list |
| Lists.FilterAppend | src/pages/admin/enterprises/EnterpriseList.tsx:22-30 | filtering distributes over concatenation |
| JsStrings.TrimStart | src/pages/enterprise/CandidateForm.tsx:94 | the start of `trim()`: the result is a suffix, what was dropped is all whitespace, and the result does not begin with whitespace |
| JsStrings.TrimEnd | src/pages/enterprise/settings/UserFormModal.tsx:65 | the end of `trim()`: the result is a prefix, what was dropped is all whitespace, and the result does not end with whitespace |
| JsStrings.BlankIffAllWhitespace | src/pages/enterprise/settings/LocationFormModal.tsx:46 | `!s.trim()` holds exactly when the text is whitespace only, the empty text included |
| JsStrings.ToLowerChar | src/pages/enterprise/Candidates.tsx:152 | `toLowerCase` on one character: capital ASCII letters move 32 code points down to lower case, everything else is unchanged |
| JsStrings.ToLower | src/pages/enterprise/Candidates.tsx:152 | `toLowerCase` keeps the length and lowers character by character |
| JsStrings.PrefixesNest | src/pages/enterprise/EnterprisePortal.tsx:51 | two prefixes of one text are prefixes of each other |
| JsStrings.SuffixesNest | src/pages/enterprise/settings/EnterpriseSettings.tsx:47 | two suffixes of one text are suffixes of each other |
| JsStrings.ConcatEnds | src/pages/enterprise/settings/EnterpriseSettings.tsx:61 | `a + b` starts with `a` and ends with `b` |
| JsStrings.IncludesIffOccursAt | src/pages/admin/enterprises/EnterpriseList.tsx:24-26 | `includes` holds exactly when the needle occurs at some position |
| JsStrings.EmptyIncludedEverywhere | src/pages/enterprise/positions/Positions.tsx:120 | every text includes the empty text |
| JsStrings.EmptyIncludedIgnoringCase | src/pages/enterprise/positions/Positions.tsx:120-122 | an empty search matches every row, case aside |
| JsStrings.Split | src/components/CandidateProfile.tsx:534 | `split(sep)` gives at least one piece and no piece holds the separator |
| JsStrings.JoinSplit | src/pages/enterprise/positions/PositionDetail.tsx:310 | joining the pieces of `split` with the separator gives back the text |
| JsStrings.SplitJoin | src/components/interview/InterviewDetailContent.tsx:289 | splitting pieces that hold no separator after joining them gives back the pieces |
| JsStrings.SplitNoSeparator | src/components/Calendar.tsx:164 | a text without the separator splits into itself alone |
| JsStrings.Before | src/components/Calendar.tsx:164 | the text up to the first separator: a separator-free prefix that stops at a separator or at the end |
| JsStrings.FirstPieceIsBefore | src/components/Calendar/Calendar.tsx:196 | `split(sep)[0]` is the text before the first separator |
| JsStrings.DigitValue | src/components/CompetencyEditModal.tsx:33 | a hexadecimal digit's value is below 16, a decimal digit's below 10 |
| JsStrings.LeadingDigits | src/components/CompetencyEditModal.tsx:33 | the longest run of digits at the start of the text |
| JsStrings.NatToString | src/components/CompetencyEditModal.tsx:33 | a number's decimal text is non-empty, all digits, and has no leading zero |
| JsStrings.DigitsValueOfNatToString | src/components/CompetencyEditModal.tsx:33 | reading the decimal text of `n` gives `n` |
| JsStrings.LeadingDigitsOfDigits | src/components/CompetencyEditModal.tsx:33 | digits followed by a non-digit are taken whole and no further |
| JsStrings.ParseUnsignedOfDigits | src/pages/enterprise/settings/LocationFormModal.tsx:156 | `parseInt` of digits followed by a non-digit (not `x`) is the digits' value |
| JsStrings.ParseIntOfDigitStart | src/pages/enterprise/settings/LocationFormModal.tsx:156 | a text that starts with a digit parses as its unsigned number |
| JsStrings.ParseIntOfMinusStart | src/pages/enterprise/settings/LocationFormModal.tsx:156 | `-` followed by an unsigned number parses as its negation |
| JsStrings.TrimStartOfNonBlankStart | src/pages/enterprise/settings/LocationFormModal.tsx:156 | `parseInt`'s leading-whitespace skip keeps a text that starts with no whitespace |
| JsStrings.ParseIntOfIntToString | src/components/CompetencyEditModal.tsx:33 | `parseInt(String(n) + rest)` is `n` for any integer `n` and any rest that does not go on with a digit or `x` |
| JsStrings.ParseUnsignedOfNatToString | src/components/CompetencyEditModal.tsx:33 | the unsigned reading of a natural number's text followed by such a rest is that number |
| JsStrings.ParseIntOfNatToString | src/components/CompetencyEditModal.tsx:33 | `parseInt` of a natural number's text followed by such a rest is that number |
| JsStrings.ParseIntOfNegated | src/components/CompetencyEditModal.tsx:33 | `parseInt` of `-` and a natural number's text followed by such a rest is the negated number |
| MarkdownLines.Hashes | src/components/CandidateProfile.tsx:534-545 | the heading marker of a level is that many `#` characters |
| MarkdownLines.MarkerThenRest | src/components/CandidateProfile.tsx:534-545 | a line that starts with a marker is the marker followed by the rest of the line |
| MarkdownLines.HeadingLineRoundTrip | src/pages/enterprise/positions/PositionDetail.tsx:310-320 | a heading drawn without its marker puts back the line it came from |
| MarkdownLines.ListLineRoundTrip | src/pages/enterprise/positions/PositionDetail.tsx:310-320 | a list item drawn without its `- ` puts back the line it came from |
| MarkdownLines.RenderLines | src/components/interview/InterviewDetailContent.tsx:289 | one block per line, each the line's own classification |
| MarkdownLines.Markups | src/components/interview/InterviewDetailContent.tsx:343 | one markup line per block, each the block's own markup |
| MarkdownLines.RenderLosesNothing | src/components/interview/InterviewDetailContent.tsx:343 | when every classified line gives back its markup, the drawn text joined by newlines is the original text |
| EditInterviewModal.Modal.InterviewerSearchChange | src/components/EditInterviewModal.tsx:307-310 | typing in the interviewer search stores the text and opens the dropdown; the form and its errors stay |
| GridCalendar.MonthView.constructor | src/components/Calendar.tsx:20 | the calendar opens on today's date, passed in |
| DepartmentSettings.ChildrenHaveParent | src/pages/enterprise/settings/DepartmentSettings.tsx:62-64 | every child found is a department of the list with the asked parent |
| DepartmentSettings.ChildrenComplete | src/pages/enterprise/settings/DepartmentSettings.tsx:62-64 | every department of the list with the asked parent is found |
| DepartmentSettings.ChildrenInOrder | src/pages/enterprise/settings/DepartmentSettings.tsx:62-64 | the children keep the list's order |
| DepartmentSettings.SubtreeRowsAreDepartments | src/pages/enterprise/settings/DepartmentSettings.tsx:72-146 | every row drawn for a department's subtree is a department of the list |
| SelectionLists.ConsKeepsKeysUnique | src/components/EditInterviewersModal.tsx:53 | an entry put in front of a list without its key keeps the keys free of repeats |
| SelectionLists.FilterKeepsKeysUnique | src/components/EditInterviewersModal.tsx:53 | dropping entries keeps the keys free of repeats |
| UserFormModal.PhoneParsesAsDigits | src/pages/enterprise/settings/UserFormModal.tsx:81 | a phone number that passes the pattern reads, under `parseInt`, as the value of its eleven digits |
| UserFormModal.PhoneDigitsValue | src/pages/enterprise/settings/UserFormModal.tsx:81 | the eleven digits of a phone number that passes the pattern lie from 13000000000 to 19999999999 |
| Lists.FirstPagesPrefix | src/pages/enterprise/Candidates.tsx:164-168 | the first `k` pages laid end to end are the list's first `k * size` rows, or all of it |

## Left out

- Rendering, CSS classes, icons, hover and focus effects, tooltips and click-outside handling are not modelled. Only the state that decides what is drawn is.
- Timed waits (`setTimeout` inside async handlers) are not modelled. Instead, each handler's effect is split into the state before and after each wait. Examples: `PositionDetail.Detail.StartAnalysis` / `AdvancePhase`, `CandidateProfile.Profile.StartAnalysis` / `FinishAnalysis`, `InterviewDetailContent.Content.StartGuide` / `FinishGuide`, and `CandidateForm.Form.ResumeUploadStart` / `ResumeUploaded` / `ResumeParsed`. Interleavings of overlapping runs are not modelled.
- Navigation, `window.location`, `console.log` and the parents' `onSubmit`/`onClose` callbacks are not modelled as calls. Each one is recorded as a field: `navigated`, `submitted` or `closed`.
- The clock is not read. Today's date is a parameter of the calendars' constructors.
- Logo and avatar uploads, and the file inputs, are not modelled.
- `new Date('YYYY-MM-DD')` string parsing, time zones, `toLocaleString` month labels and `toDateString` are not modelled. Dates are calendar-day triples (year, month 0..11, day), and a time of day never enters a comparison.
- Dates.MakeDate: JavaScript's `new Date(y, m, d)` reads a year from 0 to 99 as 1900 + y. The model takes every year as written. No calendar in the model passes a year below 100, since the years come from today's date and month steps from it.
- `toLowerCase` is modelled for the ASCII letters A-Z only. Other scripts have no case in the model, so case-insensitive search is exact for Chinese text and for ASCII.
- `includes`, `startsWith` and `endsWith` work on UTF-16 code units in JavaScript. The model works on Dafny characters. The two agree for the texts the screens hold.
- `DepartmentSettings.RenderDepartment` walks the department tree with a `fuel` bound equal to the number of departments. The source would recurse without end on a cycle of parents; the model cuts it.
- CompetencyRadar (canvas geometry and text measuring) is not part of this model. Nor are the toast, loading, slide-drawer and click-away helpers.
- The AI suggestion of src/components/CandidateProfile.tsx (lines 146-164) has no model, because its handler is never called.
- `showDetails` of the position detail is modelled and proved nested, but the source draws nothing with it.
- The fixed texts (the interview-guide and feedback templates, the analysis texts) are passed in as parameters rather than copied.
- The requirement and opportunity lists of the career path are omitted, because they are only drawn.
- Clearing one field's error: the source sets the key to `undefined`, and the model removes the key. The two read the same everywhere the record is used.
- CandidateForm.Form.HandleSubmit, NameChange, EmailChange, PhoneChange and PositionSearchChange require an unlocked form, because their controls carry `disabled={isFormDisabled}` (lines 250, 306, 360, 382 and 399 of src/pages/enterprise/CandidateForm.tsx). HandlePositionSelect and HandlePositionRemove have no such requires: the dropdown entries and the remove button are not disabled.
- InterviewModal.Modal.HandleSubmit requires the three inputs marked `required` to hold text (lines 221, 233 and 264 of src/components/InterviewModal.tsx). The other submit handlers are modelled as called directly. The browser's other built-in form checks are not modelled:
  - `type="email"` inputs refuse text that is not an address and strip surrounding white space before the handler reads it. These are src/pages/admin/enterprises/AddUserModal.tsx:91, src/pages/enterprise/settings/UserFormModal.tsx:231, src/pages/enterprise/CandidateForm.tsx:346, src/pages/admin/enterprises/EnterpriseForm.tsx:340 and :403, src/pages/enterprise/settings/ProfileSettings.tsx:149 and src/pages/admin/settings/UserSettings.tsx:170. So the padded address of `UserFormModal.EmailPatternRejectsPadding` cannot be typed there.
  - `min="1"` refuses a trial period of 0 days (src/pages/admin/enterprises/EnterpriseForm.tsx:451), which `EnterpriseForm.Form.HandleSubmit` accepts.
  - `min="1"` on the capacity (src/pages/enterprise/settings/LocationFormModal.tsx:153) keeps the negative-capacity message of `LocationFormModal.OfflineCapacityMessages` from being reached.
- JsStrings.ParseInt returns an unbounded integer. JavaScript's `parseInt` returns a double, which rounds long digit runs above 2^53. The weights of the competency editor are clamped to 0..100 and the capacity check compares with 1, so neither decision changes. A capacity typed with more than 15 digits would, however, be stored rounded in JavaScript and exactly in the model.
- CandidateForm.Form.ResumeParsed requires a non-empty position list. The source takes the first of its fixed twelve positions.
- EditInterviewModal.Modal.HandleInterviewerSelect, InterviewModal.Modal.HandleInterviewerSelect and EditInterviewersModal.Modal.HandleAddInterviewer require the interviewer to be one the dropdown offers. These are the only ones the screen lets the user click.
- CandidateProfile.Profile.PressStatusButton requires an action among the buttons drawn for the current status.
- Candidates.CandidatesScreen.PageChange and Schedule.ScheduleScreen.PageChange require a page number from 1 up. These are the only numbers the page row offers. The next arrow on an empty list is the exception, and `Pagination.NextEnabledOnEmptyList` covers it.
- PositionDetail.Detail.SetCompetencyEditModal requires the edit button to be on show when opening. This is the only way to open the editor.

## Findings

| source | as written | input that shows it | evidently intended | confidence | as-written member | corrected member |
|---|---|---|---|---|---|---|
| src/pages/enterprise/EnterprisePortal.tsx:47-50 | `isActiveRoute('')` holds only on `/enterprise` and `/enterprise/`, but the 工作台 item links to `/enterprise/dashboard` | pathname `/enterprise/dashboard`: no sidebar item is highlighted | the dashboard item is highlighted on the dashboard page it links to, as in the administrators' portal | not executed | EnterprisePortal.DashboardLinkNotHighlighted | EnterprisePortal.FixedHighlightsOwnItem |
| src/components/Calendar.tsx:55-65 | `navigateMonth` calls `setMonth(month ± 1)` on a date that keeps its day of the month | current date 31 January 2023, "next": 31 February rolls over to 3 March, so February is skipped | step to the 1st of the adjacent month, as the list calendar does | not executed | GridCalendar.NavigateNextSkipsFebruary | GridCalendar.StepMonthIsAdjacentMonth |
| src/components/Pagination.tsx:119-123 | the next button is disabled only when `currentPage === totalPages` | no rows: `totalPages` is 0, page 1 leaves "next" enabled, and page 2 reads "11 - 0" | disabled whenever there is no later page (`currentPage >= totalPages`) | not executed | Pagination.NextEnabledOnEmptyList | Pagination.NextCorrectedStaysInRange |
