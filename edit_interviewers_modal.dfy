/**
 * The dialog that changes an interview's interviewers
 * (src/components/EditInterviewersModal.tsx): it starts from the current interviewers,
 * lists the built-in interviewers that match the search and are not chosen yet, and hands
 * the chosen list back on confirmation.
 */
module EditInterviewersModal {
  import opened Wrappers
  import opened JsStrings
  import opened Lists
  import opened SelectionLists

  /** An interviewer; the department may be absent. */
  datatype Interviewer = Interviewer(id: string, name: string, title: string, phone: string, department: Option<string>)

  /** `MOCK_INTERVIEWERS`, the interviewers the dialog offers. */
  const MockInterviewers: seq<Interviewer> := [
    Interviewer("1", "李工", "技术专家", "13800138001", Some("技术部")),
    Interviewer("2", "王工", "前端架构师", "13800138002", Some("技术部")),
    Interviewer("3", "张工", "后端架构师", "13800138003", Some("技术部")),
    Interviewer("4", "赵总", "产品总监", "13800138004", Some("产品部")),
    Interviewer("5", "孙工", "算法专家", "13800138005", Some("算法部"))]

  function InterviewerId(i: Interviewer): string { i.id }

  /** The search matches the name, the title or the department, ignoring case; an absent
      department (`department?.…` is `undefined`) matches nothing. */
  predicate MatchesSearch(i: Interviewer, searchTerm: string) {
    || IncludesIgnoringCase(i.name, searchTerm)
    || IncludesIgnoringCase(i.title, searchTerm)
    || (i.department.Some? && IncludesIgnoringCase(i.department.value, searchTerm))
  }

  /** `filteredInterviewers`: the interviewers of the pool whose id is not chosen and that
      match the search, in the pool's order. */
  function FilteredInterviewers(pool: seq<Interviewer>, selected: seq<Interviewer>, searchTerm: string)
    : (r: seq<Interviewer>)
    ensures forall i :: 0 <= i < |r| ==>
      r[i] in pool && !HasKey(selected, InterviewerId, r[i].id) && MatchesSearch(r[i], searchTerm)
    ensures forall i :: 0 <= i < |pool| ==>
      (!HasKey(selected, InterviewerId, pool[i].id) && MatchesSearch(pool[i], searchTerm) ==> pool[i] in r)
    ensures IsSubsequence(r, pool)
  {
    var offered := (i: Interviewer) => !HasKey(selected, InterviewerId, i.id) && MatchesSearch(i, searchTerm);
    FilterIsSubsequence(pool, offered);
    Filter(pool, offered)
  }

  /** Adding an offered interviewer keeps the chosen ids distinct. */
  lemma AddingKeepsIdsUnique(pool: seq<Interviewer>, selected: seq<Interviewer>, searchTerm: string, i: Interviewer)
    requires UniqueKeys(selected, InterviewerId) && i in FilteredInterviewers(pool, selected, searchTerm)
    ensures UniqueKeys(selected + [i], InterviewerId)
  {
    var r := FilteredInterviewers(pool, selected, searchTerm);
    var k :| 0 <= k < |r| && r[k] == i;
    AppendKeepsKeysUnique(selected, InterviewerId, i);
  }

  /** The dialog's state; `submitted` is the latest list handed to `onSubmit`, and
      `closed` records the `onClose` that follows it. */
  class Modal {
    var selectedInterviewers: seq<Interviewer>
    var searchTerm: string
    var submitted: Option<seq<Interviewer>>
    var closed: bool

    /** No interviewer id is chosen twice. */
    ghost predicate Valid()
      reads this
    {
      UniqueKeys(selectedInterviewers, InterviewerId)
    }

    /** The chosen list starts as the current interviewers, as handed in. */
    constructor(currentInterviewers: seq<Interviewer>)
      ensures selectedInterviewers == currentInterviewers && searchTerm == ""
      ensures submitted == None && !closed
      ensures UniqueKeys(currentInterviewers, InterviewerId) ==> Valid()
    {
      selectedInterviewers := currentInterviewers;
      searchTerm := "";
      submitted := None;
      closed := false;
    }

    /** The list under the search box. */
    function Offered(): seq<Interviewer>
      reads this
    {
      FilteredInterviewers(MockInterviewers, selectedInterviewers, searchTerm)
    }

    /** `handleRemoveInterviewer`: every interviewer with the id goes, the others keep
        their order. */
    method HandleRemoveInterviewer(interviewerId: string)
      modifies this
      ensures old(Valid()) ==> Valid()
      ensures selectedInterviewers == RemoveKey(old(selectedInterviewers), InterviewerId, interviewerId)
      ensures searchTerm == old(searchTerm) && submitted == old(submitted) && closed == old(closed)
    {
      if Valid() {
        RemoveKeepsKeysUnique(selectedInterviewers, InterviewerId, interviewerId);
      }
      selectedInterviewers := RemoveKey(selectedInterviewers, InterviewerId, interviewerId);
    }

    /** `handleAddInterviewer` on an entry of the list: it goes at the end and the search
        empties. */
    method HandleAddInterviewer(i: Interviewer)
      requires i in Offered()
      modifies this
      ensures old(Valid()) ==> Valid()
      ensures selectedInterviewers == old(selectedInterviewers) + [i] && searchTerm == ""
      ensures submitted == old(submitted) && closed == old(closed)
    {
      if Valid() {
        AddingKeepsIdsUnique(MockInterviewers, selectedInterviewers, searchTerm, i);
      }
      selectedInterviewers := selectedInterviewers + [i];
      searchTerm := "";
    }

    /** The search box stores its text. */
    method SearchChange(value: string)
      modifies this
      ensures searchTerm == value
      ensures selectedInterviewers == old(selectedInterviewers) && submitted == old(submitted) && closed == old(closed)
    {
      searchTerm := value;
    }

    /** `handleSubmit`: the chosen list goes to `onSubmit` and the dialog closes. */
    method HandleSubmit()
      modifies this
      ensures submitted == Some(selectedInterviewers) && closed
      ensures selectedInterviewers == old(selectedInterviewers) && searchTerm == old(searchTerm)
    {
      submitted := Some(selectedInterviewers);
      closed := true;
    }
  }

  /** An interviewer without a department is only found by name or title. */
  lemma NoDepartmentMatchesByNameOrTitle(i: Interviewer, searchTerm: string)
    requires i.department.None?
    ensures MatchesSearch(i, searchTerm) <==>
      IncludesIgnoringCase(i.name, searchTerm) || IncludesIgnoringCase(i.title, searchTerm)
  {
  }

  /** With the search empty every built-in interviewer not chosen yet is listed. */
  lemma EmptySearchOffersAllUnchosen(selected: seq<Interviewer>)
    ensures forall i :: 0 <= i < |MockInterviewers| && !HasKey(selected, InterviewerId, MockInterviewers[i].id) ==>
      MockInterviewers[i] in FilteredInterviewers(MockInterviewers, selected, "")
  {
    forall i | 0 <= i < |MockInterviewers| ensures MatchesSearch(MockInterviewers[i], "") {
      EmptyIncludedIgnoringCase(MockInterviewers[i].name);
    }
  }
}
