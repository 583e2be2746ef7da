/**
 * The dialog that schedules a new interview (src/components/InterviewModal.tsx): a
 * candidate is picked from a searchable dropdown, interviewers are picked by name from a
 * second dropdown that leaves out the names already picked, and submitting hands the form
 * on. The handler makes no check; the browser requires date, time and location.
 */
module InterviewModal {
  import opened Wrappers
  import opened JsStrings
  import opened Lists
  import opened SelectionLists

  datatype Candidate = Candidate(id: string, name: string, position: string, appliedPosition: string)

  datatype Interviewer = Interviewer(name: string, title: string, department: string)

  /** `InterviewFormData`: the interviewers are kept by name. */
  datatype InterviewForm = InterviewForm(candidateId: string, date: string, time: string, duration: string,
                                         location: string, interviewers: seq<string>, notes: string)

  /** The browser's own gate: the date, time and location inputs carry `required`, so the
      form's `onSubmit` fires only when all three hold text. */
  predicate BrowserAccepts(f: InterviewForm) {
    f.date != "" && f.time != "" && f.location != ""
  }

  /** The untouched form cannot be submitted, while a form with no candidate and no
      interviewer passes the browser once the three required inputs hold text. */
  lemma RequiredInputsOnly()
    ensures !BrowserAccepts(InitialForm)
    ensures BrowserAccepts(InitialForm.(date := "2024-03-01", time := "10:00", location := "A"))
    ensures forall f: InterviewForm :: BrowserAccepts(f) ==> BrowserAccepts(f.(candidateId := "", interviewers := []))
  {
  }

  /** The initial form: nothing chosen, a duration of one hour. */
  const InitialForm := InterviewForm("", "", "", "1", "", [], "")

  /** A picked name is its own key. */
  function NameKey(name: string): string { name }

  /** The candidate search matches the name or the current position, ignoring case; the
      position applied for is not searched. */
  predicate CandidateMatches(c: Candidate, search: string) {
    IncludesIgnoringCase(c.name, search) || IncludesIgnoringCase(c.position, search)
  }

  /** `filteredCandidates`. */
  function FilteredCandidates(pool: seq<Candidate>, search: string): (r: seq<Candidate>)
    ensures forall i :: 0 <= i < |r| ==> r[i] in pool && CandidateMatches(r[i], search)
    ensures forall i :: 0 <= i < |pool| && CandidateMatches(pool[i], search) ==> pool[i] in r
    ensures IsSubsequence(r, pool)
  {
    var shown := (c: Candidate) => CandidateMatches(c, search);
    FilterIsSubsequence(pool, shown);
    Filter(pool, shown)
  }

  /** The interviewer search matches the name, the title or the department, ignoring
      case. */
  predicate InterviewerMatches(i: Interviewer, search: string) {
    || IncludesIgnoringCase(i.name, search)
    || IncludesIgnoringCase(i.title, search)
    || IncludesIgnoringCase(i.department, search)
  }

  /** `filteredInterviewers`: the interviewers that match and whose name is not picked
      yet, in list order. */
  function FilteredInterviewers(pool: seq<Interviewer>, search: string, picked: seq<string>): (r: seq<Interviewer>)
    ensures forall i :: 0 <= i < |r| ==> r[i] in pool && InterviewerMatches(r[i], search) && r[i].name !in picked
    ensures forall i :: 0 <= i < |pool| ==>
      (InterviewerMatches(pool[i], search) && pool[i].name !in picked ==> pool[i] in r)
    ensures IsSubsequence(r, pool)
  {
    var offered := (i: Interviewer) => InterviewerMatches(i, search) && i.name !in picked;
    FilterIsSubsequence(pool, offered);
    Filter(pool, offered)
  }

  /** The text `handleCandidateSelect` writes into the candidate search:
      "name - appliedPosition - position". */
  function CandidateSearchText(c: Candidate): (r: string)
    ensures StartsWith(r, c.name + " - ") && EndsWith(r, " - " + c.position)
    ensures |r| == |c.name| + |c.appliedPosition| + |c.position| + 6
  {
    var r := c.name + " - " + c.appliedPosition + " - " + c.position;
    assert r[..|c.name + " - "|] == c.name + " - ";
    assert r[|r| - |" - " + c.position|..] == " - " + c.position;
    r
  }

  /** Picking from the dropdown never repeats a name, and removing a name leaves no entry
      of it and keeps the others in order. */
  lemma PickingKeepsNamesUnique(pool: seq<Interviewer>, search: string, picked: seq<string>, i: Interviewer)
    requires NoDuplicates(picked) && i in FilteredInterviewers(pool, search, picked)
    ensures i.name !in picked && NoDuplicates(picked + [i.name])
  {
    var r := FilteredInterviewers(pool, search, picked);
    var k :| 0 <= k < |r| && r[k] == i;
    var t := picked + [i.name];
    forall a, b | 0 <= a < b < |t| ensures t[a] != t[b] {
      assert t[a] == picked[a];
    }
  }

  /** A list of names has unique keys exactly when it has no repeated name. */
  lemma NameKeysUnique(names: seq<string>)
    ensures UniqueKeys(names, NameKey) <==> NoDuplicates(names)
  {
  }

  /** The dialog's state; `submitted` is the latest form handed to `onSubmit`, and
      `closed` records the `onClose` that follows it. */
  class Modal {
    const candidates: seq<Candidate>
    const pool: seq<Interviewer>
    var formData: InterviewForm
    var candidateSearch: string
    var showCandidateDropdown: bool
    var interviewerSearch: string
    var showInterviewerDropdown: bool
    var submitted: Option<InterviewForm>
    var closed: bool

    /** No interviewer is picked twice. */
    ghost predicate Valid()
      reads this
    {
      NoDuplicates(formData.interviewers)
    }

    constructor(candidates: seq<Candidate>, pool: seq<Interviewer>)
      ensures Valid()
      ensures this.candidates == candidates && this.pool == pool && formData == InitialForm
      ensures candidateSearch == "" && !showCandidateDropdown && interviewerSearch == "" && !showInterviewerDropdown
      ensures submitted == None && !closed
    {
      this.candidates := candidates;
      this.pool := pool;
      formData := InitialForm;
      candidateSearch := "";
      showCandidateDropdown := false;
      interviewerSearch := "";
      showInterviewerDropdown := false;
      submitted := None;
      closed := false;
    }

    /** The interviewer dropdown's entries. */
    function Offered(): seq<Interviewer>
      reads this
    {
      FilteredInterviewers(pool, interviewerSearch, formData.interviewers)
    }

    /** `handleSubmit` checks nothing: the form goes to `onSubmit` as it is, even with no
        candidate or no interviewer, and the dialog closes. The browser calls it only when
        the `required` date, time and location inputs hold text. */
    method HandleSubmit()
      requires BrowserAccepts(formData)
      modifies this
      ensures submitted == Some(formData) && closed && formData == old(formData)
      ensures candidateSearch == old(candidateSearch) && interviewerSearch == old(interviewerSearch)
      ensures showCandidateDropdown == old(showCandidateDropdown) && showInterviewerDropdown == old(showInterviewerDropdown)
    {
      submitted := Some(formData);
      closed := true;
    }

    /** `handleCandidateSelect`: the candidate's id is stored, its description goes into
        the search box and the dropdown closes. */
    method HandleCandidateSelect(c: Candidate)
      modifies this
      ensures formData == old(formData).(candidateId := c.id)
      ensures candidateSearch == CandidateSearchText(c) && !showCandidateDropdown
      ensures interviewerSearch == old(interviewerSearch) && submitted == old(submitted) && closed == old(closed)
      ensures showInterviewerDropdown == old(showInterviewerDropdown)
    {
      formData := formData.(candidateId := c.id);
      candidateSearch := CandidateSearchText(c);
      showCandidateDropdown := false;
    }

    /** `handleInterviewerSelect` on an entry of the dropdown: the name goes at the end of
        the list, the search empties and the dropdown closes. */
    method HandleInterviewerSelect(i: Interviewer)
      requires Valid() && i in Offered()
      modifies this
      ensures Valid()
      ensures formData == old(formData).(interviewers := old(formData).interviewers + [i.name])
      ensures interviewerSearch == "" && !showInterviewerDropdown
      ensures candidateSearch == old(candidateSearch) && submitted == old(submitted) && closed == old(closed)
      ensures showCandidateDropdown == old(showCandidateDropdown)
    {
      PickingKeepsNamesUnique(pool, interviewerSearch, formData.interviewers, i);
      formData := formData.(interviewers := formData.interviewers + [i.name]);
      interviewerSearch := "";
      showInterviewerDropdown := false;
    }

    /** `handleInterviewerRemove`: every entry of the name goes, the others keep their
        order. */
    method HandleInterviewerRemove(name: string)
      requires Valid()
      modifies this
      ensures Valid()
      ensures formData == old(formData).(interviewers := RemoveKey(old(formData).interviewers, NameKey, name))
      ensures candidateSearch == old(candidateSearch) && interviewerSearch == old(interviewerSearch)
      ensures submitted == old(submitted) && closed == old(closed)
      ensures showCandidateDropdown == old(showCandidateDropdown) && showInterviewerDropdown == old(showInterviewerDropdown)
    {
      NameKeysUnique(formData.interviewers);
      RemoveKeepsKeysUnique(formData.interviewers, NameKey, name);
      NameKeysUnique(RemoveKey(formData.interviewers, NameKey, name));
      formData := formData.(interviewers := RemoveKey(formData.interviewers, NameKey, name));
    }

    /** Typing in the candidate search opens its dropdown; the picked candidate stays. */
    method CandidateSearchChange(value: string)
      modifies this
      ensures candidateSearch == value && showCandidateDropdown
      ensures formData == old(formData) && submitted == old(submitted) && closed == old(closed)
      ensures interviewerSearch == old(interviewerSearch) && showInterviewerDropdown == old(showInterviewerDropdown)
    {
      candidateSearch := value;
      showCandidateDropdown := true;
    }

    /** Typing in the interviewer search opens its dropdown; the picked names stay. */
    method InterviewerSearchChange(value: string)
      modifies this
      ensures interviewerSearch == value && showInterviewerDropdown
      ensures formData == old(formData) && submitted == old(submitted) && closed == old(closed)
      ensures candidateSearch == old(candidateSearch) && showCandidateDropdown == old(showCandidateDropdown)
    {
      interviewerSearch := value;
      showInterviewerDropdown := true;
    }

    /** The date, time, duration, location and notes inputs store their text. */
    method TextChange(date: string, time: string, duration: string, location: string, notes: string)
      modifies this
      ensures formData == old(formData).(date := date, time := time, duration := duration, location := location,
                                         notes := notes)
      ensures submitted == old(submitted) && closed == old(closed)
      ensures candidateSearch == old(candidateSearch) && interviewerSearch == old(interviewerSearch)
      ensures showCandidateDropdown == old(showCandidateDropdown) && showInterviewerDropdown == old(showInterviewerDropdown)
    {
      formData := formData.(date := date, time := time, duration := duration, location := location, notes := notes);
    }
  }
}
