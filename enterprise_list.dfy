/**
 * The enterprise list of the administration screens
 * (src/pages/admin/enterprises/EnterpriseList.tsx): a search box over name, industry and
 * location, a status select, fifteen enterprises a page, and the status badge.
 */
module EnterpriseList {
  import opened JsStrings
  import opened Lists

  /** A row of the enterprise list. `status` is `'trial' | 'formal' | 'expired'` in the
      type, but the badge functions take any text. */
  datatype Enterprise = Enterprise(
    id: int, name: string, industry: string, size: string, location: string, status: string,
    userCount: int, subscription: string, lastActive: string)

  /** `ITEMS_PER_PAGE`. */
  const ItemsPerPage: nat := 15

  /** The search box matches the name, industry or location, ignoring case. */
  predicate MatchesSearch(e: Enterprise, searchTerm: string) {
    || IncludesIgnoringCase(e.name, searchTerm)
    || IncludesIgnoringCase(e.industry, searchTerm)
    || IncludesIgnoringCase(e.location, searchTerm)
  }

  /** `'all'` passes every status; any other choice must equal the status. */
  predicate MatchesStatus(e: Enterprise, selectedStatus: string) {
    selectedStatus == "all" || e.status == selectedStatus
  }

  predicate Shows(e: Enterprise, searchTerm: string, selectedStatus: string) {
    MatchesSearch(e, searchTerm) && MatchesStatus(e, selectedStatus)
  }

  /** `filteredEnterprises`: exactly the enterprises that pass search and status, in the
      order of the list. */
  function FilteredEnterprises(enterprises: seq<Enterprise>, searchTerm: string, selectedStatus: string): (r: seq<Enterprise>)
    ensures forall i :: 0 <= i < |r| ==> r[i] in enterprises && Shows(r[i], searchTerm, selectedStatus)
    ensures forall i :: 0 <= i < |enterprises| && Shows(enterprises[i], searchTerm, selectedStatus) ==> enterprises[i] in r
    ensures IsSubsequence(r, enterprises)
  {
    var shows := (e: Enterprise) => Shows(e, searchTerm, selectedStatus);
    FilterIsSubsequence(enterprises, shows);
    Filter(enterprises, shows)
  }

  /** `paginatedEnterprises`: the slice from `(currentPage - 1) * 15`, fifteen rows long;
      empty exactly on pages past the last. */
  function PaginatedEnterprises(filtered: seq<Enterprise>, currentPage: int): (r: seq<Enterprise>)
    ensures r == PageOf(filtered, currentPage, ItemsPerPage)
    ensures currentPage >= 1 ==> |r| <= ItemsPerPage
    ensures currentPage >= 1 ==> (r != [] <==> currentPage <= TotalPages(|filtered|, ItemsPerPage))
  {
    var startIndex := (currentPage - 1) * ItemsPerPage;
    if currentPage >= 1 then
      PageContents(filtered, currentPage, ItemsPerPage);
      NonEmptyPagesExactly(filtered, currentPage, ItemsPerPage);
      Slice(filtered, startIndex, startIndex + ItemsPerPage)
    else
      Slice(filtered, startIndex, startIndex + ItemsPerPage)
  }

  /** An empty search with `'all'` shows every enterprise. */
  lemma NoFilterShowsAll(enterprises: seq<Enterprise>)
    ensures FilteredEnterprises(enterprises, "", "all") == enterprises
  {
    forall i | 0 <= i < |enterprises| ensures Shows(enterprises[i], "", "all") {
      EmptyIncludedIgnoringCase(enterprises[i].name);
    }
    FilterAll(enterprises, (e: Enterprise) => Shows(e, "", "all"));
  }

  /** Choosing a status only ever hides rows of the same search under `'all'`. */
  lemma StatusHidesRows(enterprises: seq<Enterprise>, searchTerm: string, selectedStatus: string)
    ensures IsSubsequence(FilteredEnterprises(enterprises, searchTerm, selectedStatus),
                          FilteredEnterprises(enterprises, searchTerm, "all"))
  {
    FilterStronger(enterprises,
      (e: Enterprise) => Shows(e, searchTerm, selectedStatus),
      (e: Enterprise) => Shows(e, searchTerm, "all"));
  }

  // ---------------------------------------------------------------------------
  // The status badge
  // ---------------------------------------------------------------------------

  const GreenBadge := "bg-green-100 text-green-700"
  const BlueBadge := "bg-blue-100 text-blue-700"
  const RedBadge := "bg-red-100 text-red-700"
  const GrayBadge := "bg-gray-100 text-gray-700"

  /** The three statuses an enterprise can have. */
  predicate KnownStatus(status: string) {
    status == "formal" || status == "trial" || status == "expired"
  }

  /** `getStatusBadgeStyle`: green for a formal customer, blue for a trial, red for an
      expired one, gray for any other text. */
  function StatusBadgeStyle(status: string): (r: string)
    ensures status == "formal" ==> r == GreenBadge
    ensures status == "trial" ==> r == BlueBadge
    ensures status == "expired" ==> r == RedBadge
    ensures r == GrayBadge <==> !KnownStatus(status)
  {
    match status
    case "formal" => GreenBadge
    case "trial" => BlueBadge
    case "expired" => RedBadge
    case _ => GrayBadge
  }

  /** `getStatusText`: the Chinese label of a known status; any other text is shown as
      it is. */
  function StatusText(status: string): (r: string)
    ensures status == "formal" ==> r == "正式"
    ensures status == "trial" ==> r == "试用中"
    ensures status == "expired" ==> r == "已到期"
    ensures !KnownStatus(status) ==> r == status
  {
    match status
    case "formal" => "正式"
    case "trial" => "试用中"
    case "expired" => "已到期"
    case _ => status
  }

  /** The badge is gray exactly when its text is the status itself, and the three known
      statuses get three different colours and three different labels. */
  lemma BadgeAgreesWithText(status: string)
    ensures StatusBadgeStyle(status) == GrayBadge <==> StatusText(status) == status
    ensures forall a, b :: KnownStatus(a) && KnownStatus(b) && a != b ==>
      StatusBadgeStyle(a) != StatusBadgeStyle(b) && StatusText(a) != StatusText(b)
  {
  }
}
